/** String primitives of JavaScript that the source relies on, stated over
    `seq<char>`: `trim`, `startsWith`, `join`, ASCII case folding (as done by
    a regular expression with the `i` flag and no `u` flag) and the decimal
    rendering of a natural number in a template string. */
module Text {

  /** The code points `String.prototype.trim` removes: WhiteSpace (TAB, VT,
      FF, SP, NBSP, ZWNBSP and the Zs category) and LineTerminator (LF, CR,
      LS, PS). */
  predicate IsJsWhitespace(c: char) {
    var n := c as int;
    n == 0x09 || n == 0x0A || n == 0x0B || n == 0x0C || n == 0x0D || n == 0x20 ||
    n == 0xA0 || n == 0x1680 || (0x2000 <= n <= 0x200A) || n == 0x2028 ||
    n == 0x2029 || n == 0x202F || n == 0x205F || n == 0x3000 || n == 0xFEFF
  }

  /** The index of the first non-whitespace character of `s` at or after
      `i`, or `|s|` if there is none. */
  function SkipStart(s: string, i: nat): (k: nat)
    requires i <= |s|
    ensures i <= k <= |s|
    ensures forall j :: i <= j < k ==> IsJsWhitespace(s[j])
    ensures k < |s| ==> !IsJsWhitespace(s[k])
    decreases |s| - i
  {
    if i < |s| && IsJsWhitespace(s[i]) then SkipStart(s, i + 1) else i
  }

  /** The end of `s[lo..j]` once its trailing whitespace is cut away. */
  function SkipEnd(s: string, lo: nat, j: nat): (k: nat)
    requires lo <= j <= |s|
    ensures lo <= k <= j
    ensures forall m :: k <= m < j ==> IsJsWhitespace(s[m])
    ensures k > lo ==> !IsJsWhitespace(s[k - 1])
    decreases j
  {
    if j > lo && IsJsWhitespace(s[j - 1]) then SkipEnd(s, lo, j - 1) else j
  }

  /** How many whitespace characters `trim` removes from the front of `s`. */
  function LeadingWhitespace(s: string): nat
    ensures LeadingWhitespace(s) <= |s|
  {
    SkipStart(s, 0)
  }

  /** `String.prototype.trim`: the infix of `s` left once the whitespace at
      both ends is cut away; it neither starts nor ends with whitespace. */
  function Trim(s: string): (r: string)
    ensures r == [] || (!IsJsWhitespace(r[0]) && !IsJsWhitespace(r[|r| - 1]))
    ensures LeadingWhitespace(s) + |r| <= |s|
    ensures r == s[LeadingWhitespace(s)..LeadingWhitespace(s) + |r|]
    ensures forall i :: 0 <= i < LeadingWhitespace(s) ==> IsJsWhitespace(s[i])
    ensures forall i :: LeadingWhitespace(s) + |r| <= i < |s| ==> IsJsWhitespace(s[i])
  {
    var a := SkipStart(s, 0);
    s[a..SkipEnd(s, a, |s|)]
  }

  /** The trimmed text neither starts nor ends with whitespace (the first
      postcondition of `Trim`, as a lemma to call where naming the trimmed
      text keeps a proof small). */
  lemma TrimEnds(s: string)
    ensures Trim(s) == [] || (!IsJsWhitespace(Trim(s)[0]) && !IsJsWhitespace(Trim(s)[|Trim(s)| - 1]))
  {
  }

  /** A string that is all whitespace trims to the empty string, and only such a string. */
  lemma TrimEmptyIffBlank(s: string)
    ensures Trim(s) == [] <==> forall i :: 0 <= i < |s| ==> IsJsWhitespace(s[i])
  {
  }

  /** Trimming twice is trimming once. */
  lemma TrimIdempotent(s: string)
    ensures Trim(Trim(s)) == Trim(s)
  {
    var r := Trim(s);
    if r != [] {
      assert SkipStart(r, 0) == 0;
      assert SkipEnd(r, 0, |r|) == |r|;
    }
  }

  /** Trimming a string with no whitespace at either end leaves it unchanged. */
  lemma TrimNoop(s: string)
    requires s == [] || (!IsJsWhitespace(s[0]) && !IsJsWhitespace(s[|s| - 1]))
    ensures Trim(s) == s
  {
  }

  /** `String.prototype.startsWith`. */
  predicate StartsWith(s: string, prefix: string) {
    |prefix| <= |s| && s[..|prefix|] == prefix
  }

  /** `String.prototype.endsWith`. */
  predicate EndsWith(s: string, suffix: string) {
    |suffix| <= |s| && s[|s| - |suffix|..] == suffix
  }

  /** A string starts with its left part. */
  lemma StartsWithLeft(a: string, b: string)
    ensures StartsWith(a + b, a)
  {
    assert (a + b)[..|a|] == a;
  }

  /** A string ends with its right part. */
  lemma EndsWithRight(a: string, b: string)
    ensures EndsWith(a + b, b)
  {
    assert (a + b)[|a|..] == b;
  }

  /** Appending keeps a prefix. */
  lemma StartsWithAppend(s: string, prefix: string, t: string)
    requires StartsWith(s, prefix)
    ensures StartsWith(s + t, prefix)
  {
    assert (s + t)[..|prefix|] == s[..|prefix|];
  }

  /** Prepending keeps a suffix. */
  lemma EndsWithPrepend(t: string, s: string, suffix: string)
    requires EndsWith(s, suffix)
    ensures EndsWith(t + s, suffix)
  {
    assert (t + s)[|t + s| - |suffix|..] == s[|s| - |suffix|..];
  }

  /** Appending the same text to a string and to one of its suffixes keeps
      the suffix relation. */
  lemma EndsWithGrow(s: string, suffix: string, t: string)
    requires EndsWith(s, suffix)
    ensures EndsWith(s + t, suffix + t)
  {
    assert (s + t)[|s + t| - |suffix + t|..] == s[|s| - |suffix|..] + t;
  }

  /** The character just before a suffix `t` of `s` is the last character of
      whatever `s` ends with before `t`. */
  lemma EndsWithCharBefore(s: string, x: string, t: string)
    requires EndsWith(s, x + t) && x != []
    ensures |t| < |s| && s[|s| - |t| - 1] == x[|x| - 1]
  {
    assert s[|s| - |x + t|..][|x| - 1] == (x + t)[|x| - 1];
  }

  /** A three-part concatenation starts with its first part, ends with its
      last part and holds its middle part, unaltered, in between. */
  lemma Enclosed(a: string, b: string, c: string)
    ensures StartsWith(a + b + c, a) && EndsWith(a + b + c, c)
    ensures |a + b + c| == |a| + |b| + |c|
    ensures (a + b + c)[|a|..|a + b + c| - |c|] == b
  {
    assert (a + b + c)[..|a|] == a;
    assert (a + b + c)[|a| + |b|..] == c;
    assert (a + b + c)[|a|..|a| + |b|] == b;
  }

  /** `r` occurs in `s` starting at index `i`. */
  predicate InfixAt(r: string, s: string, i: int) {
    0 <= i <= |s| - |r| && s[i..i + |r|] == r
  }

  /** `r` occurs in `s` as a contiguous piece. */
  predicate IsInfix(r: string, s: string) {
    exists i :: 0 <= i <= |s| && InfixAt(r, s, i)
  }

  /** A piece found at `i` of a piece found at `j` of `t` sits at `j + i`
      in `t`. */
  lemma InfixAtShift(r: string, s: string, t: string, i: int, j: int)
    requires InfixAt(r, s, i) && InfixAt(s, t, j)
    ensures InfixAt(r, t, j + i)
  {
    forall k | 0 <= k < |r|
      ensures t[j + i..j + i + |r|][k] == r[k]
    {
      assert t[j + i + k] == t[j..j + |s|][i + k] == s[i..i + |r|][k];
    }
    assert t[j + i..j + i + |r|] == r;
  }

  /** The right part of a prefix sits in `s` right after the left part. */
  lemma StartsWithInfix(s: string, a: string, b: string)
    requires StartsWith(s, a + b)
    ensures InfixAt(b, s, |a|)
  {
    assert s[|a|..|a| + |b|] == s[..|a + b|][|a|..] == (a + b)[|a|..] == b;
  }

  /** A piece of a piece of `s` is a piece of `s`. */
  lemma InfixTransitive(r: string, s: string, t: string)
    requires IsInfix(r, s) && IsInfix(s, t)
    ensures IsInfix(r, t)
  {
    var i :| 0 <= i <= |s| && InfixAt(r, s, i);
    var j :| 0 <= j <= |t| && InfixAt(s, t, j);
    InfixAtShift(r, s, t, i, j);
  }

  /** A prefix of a prefix of `s` is a prefix of `s`. */
  lemma StartsWithTransitive(s: string, p: string, q: string)
    requires StartsWith(s, p) && StartsWith(p, q)
    ensures StartsWith(s, q)
  {
    assert s[..|q|] == s[..|p|][..|q|];
  }

  /** Concatenation is associative. */
  lemma AppendAssoc(a: string, b: string, c: string)
    ensures a + (b + c) == a + b + c
  {
  }

  /** The same text put in front of a string and of its prefix keeps the
      prefix. */
  lemma StartsWithPrepend(t: string, s: string, p: string)
    requires StartsWith(s, p)
    ensures StartsWith(t + s, t + p)
  {
    assert (t + s)[..|t + p|] == t + s[..|p|];
  }

  /** Trimming keeps a piece of its input. */
  lemma TrimInfix(s: string)
    ensures IsInfix(Trim(s), s)
  {
    assert InfixAt(Trim(s), s, LeadingWhitespace(s));
  }

  /** `Array.prototype.join` over strings. */
  function Join(parts: seq<string>, sep: string): (r: string)
    ensures parts == [] ==> r == ""
    ensures |parts| == 1 ==> r == parts[0]
  {
    if parts == [] then ""
    else if |parts| == 1 then parts[0]
    else parts[0] + sep + Join(parts[1..], sep)
  }

  /** Joining appends one separator per additional part. */
  lemma {:induction false} JoinSnoc(parts: seq<string>, last: string, sep: string)
    requires parts != []
    ensures Join(parts + [last], sep) == Join(parts, sep) + sep + last
  {
    if |parts| == 1 {
      assert (parts + [last])[1..] == [last];
    } else {
      assert (parts + [last])[1..] == parts[1..] + [last];
      JoinSnoc(parts[1..], last, sep);
    }
  }

  /** A joined text ends with the tail of its parts. */
  lemma JoinTail(parts: seq<string>, sep: string)
    requires |parts| >= 2
    ensures EndsWith(Join(parts, sep), sep + Join(parts[1..], sep))
    ensures InfixAt(Join(parts[1..], sep), Join(parts, sep), |parts[0] + sep|)
  {
    Enclosed(parts[0] + sep, Join(parts[1..], sep), "");
    assert Join(parts, sep) == parts[0] + sep + Join(parts[1..], sep) + "";
    assert Join(parts, sep) == parts[0] + (sep + Join(parts[1..], sep));
    EndsWithRight(parts[0], sep + Join(parts[1..], sep));
  }

  /** Every part but the first and the last stands between two separators
      in the joined text. */
  lemma {:induction false} JoinInterior(parts: seq<string>, sep: string, i: nat)
    requires 0 < i < |parts| - 1
    ensures IsInfix(sep + parts[i] + sep, Join(parts, sep))
  {
    var rest := parts[1..];
    JoinTail(parts, sep);
    assert IsInfix(Join(rest, sep), Join(parts, sep));
    if i == 1 {
      var piece := sep + parts[1] + sep;
      assert Join(rest, sep) == parts[1] + sep + Join(rest[1..], sep);
      assert Join(parts, sep) == parts[0] + piece + Join(rest[1..], sep);
      Enclosed(parts[0], piece, Join(rest[1..], sep));
      assert InfixAt(piece, Join(parts, sep), |parts[0]|);
    } else {
      JoinInterior(rest, sep, i - 1);
      InfixTransitive(sep + parts[i] + sep, Join(rest, sep), Join(parts, sep));
    }
  }

  /** Every part is a piece of the joined text. */
  lemma {:induction false} JoinPart(parts: seq<string>, sep: string, i: nat)
    requires i < |parts|
    ensures IsInfix(parts[i], Join(parts, sep))
  {
    if i == 0 {
      if |parts| > 1 {
        assert Join(parts, sep) == parts[0] + (sep + Join(parts[1..], sep));
        StartsWithLeft(parts[0], sep + Join(parts[1..], sep));
      }
      assert InfixAt(parts[0], Join(parts, sep), 0);
    } else {
      JoinTail(parts, sep);
      JoinPart(parts[1..], sep, i - 1);
      assert IsInfix(Join(parts[1..], sep), Join(parts, sep));
      InfixTransitive(parts[i], Join(parts[1..], sep), Join(parts, sep));
    }
  }

  /** Every part of a joined text that follows a prefix is a piece of the
      whole text. */
  lemma JoinedPartInPrefix(s: string, before: string, parts: seq<string>, sep: string, i: nat)
    requires StartsWith(s, before + Join(parts, sep)) && i < |parts|
    ensures IsInfix(parts[i], s)
  {
    JoinPart(parts, sep, i);
    StartsWithInfix(s, before, Join(parts, sep));
    InfixTransitive(parts[i], Join(parts, sep), s);
  }

  /** The last part ends the joined text, after a separator. */
  lemma {:induction false} JoinLast(parts: seq<string>, sep: string)
    requires |parts| >= 2
    ensures EndsWith(Join(parts, sep), sep + parts[|parts| - 1])
  {
    if |parts| > 2 {
      JoinLast(parts[1..], sep);
      EndsWithPrepend(parts[0] + sep, Join(parts[1..], sep), sep + parts[|parts| - 1]);
    } else {
      JoinTail(parts, sep);
      assert Join(parts[1..], sep) == parts[1];
    }
  }

  /** ASCII lower-casing of one character; every other character is its own
      canonical form for a non-Unicode case-insensitive regular expression
      whose pattern is pure ASCII. */
  function LowerAscii(c: char): (r: char)
    ensures ('A' <= c <= 'Z') == (r != c)
    ensures 'A' <= c <= 'Z' ==> 'a' <= r <= 'z' && r as int - c as int == 32
  {
    if 'A' <= c <= 'Z' then (c as int + 32) as char else c
  }

  /** Equality up to ASCII case. */
  predicate EqualsIgnoreCase(a: string, b: string) {
    |a| == |b| && forall i :: 0 <= i < |a| ==> LowerAscii(a[i]) == LowerAscii(b[i])
  }

  /** `b` is a prefix of `s` up to ASCII case. */
  predicate StartsWithIgnoreCase(s: string, prefix: string) {
    |prefix| <= |s| && EqualsIgnoreCase(s[..|prefix|], prefix)
  }

  function DigitChar(d: nat): (c: char)
    requires d < 10
    ensures '0' <= c <= '9' && c as int - '0' as int == d
  {
    ('0' as int + d) as char
  }

  /** The decimal rendering of a natural number, as a template string shows it. */
  function NatToString(n: nat): (r: string)
    ensures |r| >= 1 && forall i :: 0 <= i < |r| ==> '0' <= r[i] <= '9'
    ensures ParseDecimal(r) == n
  {
    if n < 10 then [DigitChar(n)] else NatToString(n / 10) + [DigitChar(n % 10)]
  }

  /** The value of a string of decimal digits; the partner of `NatToString`. */
  function ParseDecimal(s: string): nat
    requires forall i :: 0 <= i < |s| ==> '0' <= s[i] <= '9'
  {
    if s == [] then 0 else 10 * ParseDecimal(s[..|s| - 1]) + (s[|s| - 1] as int - '0' as int)
  }
}
