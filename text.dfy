/**
 * String helpers with the behaviour of the JavaScript built-ins the application
 * uses: `trim`, `startsWith`, `includes`, `split`/`join`, template-literal
 * printing of integers, and (on ASCII letters) `toLowerCase`/`toUpperCase`.
 */
module Text {

  /** ECMAScript WhiteSpace and LineTerminator code points: what `trim()` strips and `\s` matches. */
  predicate IsJsSpace(c: char) {
    c == '\t' || c == '\n' || c == '\U{000B}' || c == '\U{000C}' || c == '\r' || c == ' ' ||
    c == '\U{00A0}' || c == '\U{1680}' || ('\U{2000}' <= c <= '\U{200A}') ||
    c == '\U{2028}' || c == '\U{2029}' || c == '\U{202F}' || c == '\U{205F}' ||
    c == '\U{3000}' || c == '\U{FEFF}'
  }

  predicate IsAsciiDigit(c: char) { '0' <= c <= '9' }
  predicate IsAsciiUpper(c: char) { 'A' <= c <= 'Z' }
  predicate IsAsciiLower(c: char) { 'a' <= c <= 'z' }
  predicate IsAsciiLetter(c: char) { IsAsciiUpper(c) || IsAsciiLower(c) }

  predicate AllDigits(s: string) { forall i :: 0 <= i < |s| ==> IsAsciiDigit(s[i]) }

  /** `s.trimStart()`: the longest suffix of `s` that does not start with white space. */
  function TrimStart(s: string): (r: string)
    ensures |r| <= |s| && r == s[|s| - |r|..]
    ensures r == [] || !IsJsSpace(r[0])
    ensures forall k :: 0 <= k < |s| - |r| ==> IsJsSpace(s[k])
  {
    if s != [] && IsJsSpace(s[0]) then TrimStart(s[1..]) else s
  }

  /** `s.trimEnd()`: the longest prefix of `s` that does not end with white space. */
  function TrimEnd(s: string): (r: string)
    ensures |r| <= |s| && r == s[..|r|]
    ensures r == [] || !IsJsSpace(r[|r| - 1])
    ensures forall k :: |r| <= k < |s| ==> IsJsSpace(s[k])
  {
    if s != [] && IsJsSpace(s[|s| - 1]) then TrimEnd(s[..|s| - 1]) else s
  }

  /** Every character of `s` is white space. */
  predicate AllSpace(s: string) { forall k :: 0 <= k < |s| ==> IsJsSpace(s[k]) }

  /** `s.trim()`: `s` without its leading and trailing white space. */
  function Trim(s: string): (r: string)
    ensures |r| <= |s| && exists i :: OccursAt(s, r, i)
    ensures r == [] || (!IsJsSpace(r[0]) && !IsJsSpace(r[|r| - 1]))
    ensures exists i :: OccursAt(s, r, i) && AllSpace(s[..i]) && AllSpace(s[i + |r|..])
  {
    var t := TrimStart(s);
    var r := TrimEnd(t);
    var i := |s| - |t|;
    assert t == s[i..] && r == t[..|r|];
    assert OccursAt(s, r, i);
    assert AllSpace(s[..i]);
    assert s[i + |r|..] == t[|r|..];
    assert AllSpace(t[|r|..]);
    r
  }

  /** A string with no white space at either end is its own trim. */
  lemma {:induction false} TrimNoSpace(s: string)
    requires forall i :: 0 <= i < |s| ==> !IsJsSpace(s[i])
    ensures Trim(s) == s
  {
  }

  /** Leading white space is all that `trimStart` removes. */
  lemma {:induction false} TrimStartSkips(p: string, t: string)
    requires forall i :: 0 <= i < |p| ==> IsJsSpace(p[i])
    requires t == [] || !IsJsSpace(t[0])
    ensures TrimStart(p + t) == t
  {
    if p != [] {
      assert (p + t)[1..] == p[1..] + t;
      TrimStartSkips(p[1..], t);
    } else {
      assert p + t == t;
    }
  }

  /** Trailing white space is all that `trimEnd` removes. */
  lemma {:induction false} TrimEndSkips(t: string, q: string)
    requires forall i :: 0 <= i < |q| ==> IsJsSpace(q[i])
    requires t == [] || !IsJsSpace(t[|t| - 1])
    ensures TrimEnd(t + q) == t
  {
    if q != [] {
      assert (t + q)[..|t + q| - 1] == t + q[..|q| - 1];
      TrimEndSkips(t, q[..|q| - 1]);
    } else {
      assert t + q == t;
    }
  }

  /** Trimming a text padded with white space on both sides gives the text back. */
  lemma TrimPadded(p: string, m: string, q: string)
    requires forall i :: 0 <= i < |p| ==> IsJsSpace(p[i])
    requires forall i :: 0 <= i < |q| ==> IsJsSpace(q[i])
    requires m == [] || (!IsJsSpace(m[0]) && !IsJsSpace(m[|m| - 1]))
    ensures Trim(p + m + q) == (if m == [] then [] else m)
  {
    if m == [] {
      var pq := p + m + q;
      assert forall i :: 0 <= i < |pq| ==> IsJsSpace(pq[i]) by {
        forall i | 0 <= i < |pq|
          ensures IsJsSpace(pq[i])
        {
          if i < |p| { assert pq[i] == p[i]; } else { assert pq[i] == q[i - |p|]; }
        }
      }
      TrimStartSkips(pq, []);
      assert pq + [] == pq;
    } else {
      assert p + m + q == p + (m + q);
      TrimStartSkips(p, m + q);
      TrimEndSkips(m, q);
    }
  }

  /** A string of digits has no white space to trim. */
  lemma DigitsTrimToThemselves(s: string)
    requires AllDigits(s)
    ensures Trim(s) == s
  {
    forall i | 0 <= i < |s|
      ensures !IsJsSpace(s[i])
    {
      assert IsAsciiDigit(s[i]);
    }
    TrimNoSpace(s);
  }

  /** `s.startsWith(p)`. */
  predicate StartsWith(s: string, p: string) {
    |p| <= |s| && s[..|p|] == p
  }

  /** `p` occurs in `s` starting at position `i`. */
  predicate OccursAt(s: string, p: string, i: int) {
    0 <= i <= |s| - |p| && s[i..i + |p|] == p
  }

  /** `s.includes(p)`. */
  predicate Contains(s: string, p: string) {
    exists i | 0 <= i <= |s| - |p| :: OccursAt(s, p, i)
  }

  function LowerChar(c: char): char {
    if IsAsciiUpper(c) then (c as int + 32) as char else c
  }

  function UpperChar(c: char): char {
    if IsAsciiLower(c) then (c as int - 32) as char else c
  }

  /** `s.toLowerCase()` on ASCII letters. */
  function ToLower(s: string): (r: string)
    ensures |r| == |s| && forall i :: 0 <= i < |s| ==> r[i] == LowerChar(s[i])
    ensures forall i :: 0 <= i < |r| ==> !IsAsciiUpper(r[i])
  {
    seq(|s|, i requires 0 <= i < |s| => LowerChar(s[i]))
  }

  /** Lowercasing twice is lowercasing once. */
  lemma ToLowerIdempotent(s: string)
    ensures ToLower(ToLower(s)) == ToLower(s)
  {
    var once := ToLower(s);
    forall i | 0 <= i < |once|
      ensures LowerChar(once[i]) == once[i]
    {
      assert !IsAsciiUpper(once[i]);
    }
  }

  /** Lowercasing forgets the case of the input, so it ignores any prior uppercasing. */
  lemma ToLowerIgnoresCase(s: string)
    ensures ToLower(ToUpper(s)) == ToLower(s)
  {
    var up := ToUpper(s);
    forall i | 0 <= i < |s|
      ensures LowerChar(up[i]) == LowerChar(s[i])
    {
      assert up[i] == UpperChar(s[i]);
    }
  }

  /** `s.toUpperCase()` on ASCII letters. */
  function ToUpper(s: string): (r: string)
    ensures |r| == |s| && forall i :: 0 <= i < |s| ==> r[i] == UpperChar(s[i])
    ensures forall i :: 0 <= i < |r| ==> !IsAsciiLower(r[i])
  {
    seq(|s|, i requires 0 <= i < |s| => UpperChar(s[i]))
  }

  /** `s.replace(from, to)` with a one-character pattern: only the first occurrence changes. */
  function ReplaceFirst(s: string, from: char, to: char): (r: string)
    ensures |r| == |s|
    ensures from !in s ==> r == s
    ensures from in s ==> to in r
    ensures forall k :: 0 <= k < |s| && r[k] != s[k] ==> s[k] == from && r[k] == to && from !in s[..k]
    ensures forall k :: 0 <= k < |s| ==> r[k] == (if s[k] == from && from !in s[..k] then to else s[k])
  {
    if from !in s then s
    else
      var i := FirstIndex(s, from);
      assert forall k :: i < k <= |s| ==> s[..k][i] == from;
      s[..i] + [to] + s[i + 1..]
  }

  // ---------------------------------------------------------------------------
  // Decimal printing, as in a template literal `${n}`
  // ---------------------------------------------------------------------------

  function DigitChar(d: nat): char
    requires d < 10
  {
    ('0' as int + d) as char
  }

  function DigitValue(c: char): nat {
    if IsAsciiDigit(c) then c as int - '0' as int else 0
  }

  /** The decimal digits of `n`, most significant first, without leading zeros. */
  function NatToString(n: nat): (r: string)
    ensures |r| > 0 && AllDigits(r)
  {
    if n < 10 then [DigitChar(n)] else NatToString(n / 10) + [DigitChar(n % 10)]
  }

  /** `${i}` for an integer: a minus sign, then the digits of its magnitude. */
  function IntToString(i: int): (r: string)
    ensures i >= 0 ==> '-' !in r && r == NatToString(i)
    ensures i < 0 ==> r == "-" + NatToString(-i)
  {
    if i < 0 then "-" + NatToString(-i) else NatToString(i)
  }

  /** Reads a string of decimal digits back into the number it denotes. */
  function ParseNat(s: string): nat {
    if s == [] then 0 else ParseNat(s[..|s| - 1]) * 10 + DigitValue(s[|s| - 1])
  }

  /** Printing is inverted by parsing. */
  lemma {:induction false} ParsePrinted(n: nat)
    ensures ParseNat(NatToString(n)) == n
  {
    if n >= 10 {
      var s := NatToString(n);
      assert s[..|s| - 1] == NatToString(n / 10);
      ParsePrinted(n / 10);
    }
  }

  /** Distinct numbers print differently. */
  lemma NatToStringInjective(m: nat, n: nat)
    ensures NatToString(m) == NatToString(n) ==> m == n
  {
    ParsePrinted(m);
    ParsePrinted(n);
  }

  // ---------------------------------------------------------------------------
  // Keys of the shape `${a}-${b}`
  // ---------------------------------------------------------------------------

  /** In `a-b` with no `-` in `b`, the separator is the last `-`. */
  lemma DashIsLast(a: string, b: string)
    requires '-' !in b
    ensures (a + "-" + b)[|a|] == '-'
    ensures forall j :: |a| < j < |a| + 1 + |b| ==> (a + "-" + b)[j] != '-'
  {
    var k := a + "-" + b;
    forall j | |a| < j < |a| + 1 + |b|
      ensures k[j] != '-'
    {
      assert k[j] == b[j - |a| - 1];
    }
  }

  /** In `a-b` with no `-` in `a`, the separator is the first `-`. */
  lemma DashIsFirst(a: string, b: string)
    requires '-' !in a
    ensures (a + "-" + b)[|a|] == '-'
    ensures forall j :: 0 <= j < |a| ==> (a + "-" + b)[j] != '-'
  {
    var k := a + "-" + b;
    forall j | 0 <= j < |a|
      ensures k[j] != '-'
    {
      assert k[j] == a[j];
    }
  }

  /** A `-`-joined key is split unambiguously when its right part contains no `-`. */
  lemma DashKeySplitsAtLast(a: string, b: string, c: string, d: string)
    requires '-' !in b && '-' !in d
    requires a + "-" + b == c + "-" + d
    ensures a == c && b == d
  {
    DashIsLast(a, b);
    DashIsLast(c, d);
    var k := a + "-" + b;
    assert |a| == |c|;
    assert a == k[..|a|] == c;
    assert b == k[|a| + 1..] == d;
  }

  /** A `-`-joined key is split unambiguously when its left part contains no `-`. */
  lemma DashKeySplitsAtFirst(a: string, b: string, c: string, d: string)
    requires '-' !in a && '-' !in c
    requires a + "-" + b == c + "-" + d
    ensures a == c && b == d
  {
    DashIsFirst(a, b);
    DashIsFirst(c, d);
    var k := a + "-" + b;
    assert |a| == |c|;
    assert a == k[..|a|] == c;
    assert b == k[|a| + 1..] == d;
  }

  // ---------------------------------------------------------------------------
  // split / join
  // ---------------------------------------------------------------------------

  /** The position of the first `c` in `s`. */
  function FirstIndex(s: string, c: char): (i: nat)
    requires c in s
    ensures i < |s| && s[i] == c && c !in s[..i]
  {
    if s[0] == c then 0 else 1 + FirstIndex(s[1..], c)
  }

  /** `s.split(c)` for a one-character separator: never empty, `[""]` for `""`. */
  function Split(s: string, c: char): (parts: seq<string>)
    ensures |parts| > 0
    ensures forall k :: 0 <= k < |parts| ==> c !in parts[k]
    decreases |s|
  {
    if c !in s then [s]
    else
      var i := FirstIndex(s, c);
      [s[..i]] + Split(s[i + 1..], c)
  }

  /** The last part of a split is the last part of the split after the first separator. */
  lemma SplitKeepsLast(s: string, c: char)
    requires c in s
    ensures var all := Split(s, c);
            var parts := Split(s[FirstIndex(s, c) + 1..], c);
            all[|all| - 1] == parts[|parts| - 1]
  {
    var parts := Split(s[FirstIndex(s, c) + 1..], c);
    assert Split(s, c) == [s[..FirstIndex(s, c)]] + parts;
  }

  /** `parts.join(c)`. */
  function Join(parts: seq<string>, c: char): string {
    if parts == [] then ""
    else if |parts| == 1 then parts[0]
    else parts[0] + [c] + Join(parts[1..], c)
  }

  /** Splitting a join gives back the parts when no part contains the separator. */
  lemma {:induction false} SplitJoin(parts: seq<string>, c: char)
    requires |parts| > 0
    requires forall k :: 0 <= k < |parts| ==> c !in parts[k]
    ensures Split(Join(parts, c), c) == parts
  {
    if |parts| > 1 {
      var s := Join(parts, c);
      var p := parts[0];
      assert s == p + [c] + Join(parts[1..], c);
      assert s[|p|] == c && s[..|p|] == p;
      assert FirstIndex(s, c) == |p|;
      assert s[|p| + 1..] == Join(parts[1..], c);
      SplitJoin(parts[1..], c);
    }
  }

  /** A character that is neither the separator nor in any part is not in the join. */
  lemma {:induction false} JoinAvoids(parts: seq<string>, c: char, d: char)
    requires d != c
    requires forall k :: 0 <= k < |parts| ==> d !in parts[k]
    ensures d !in Join(parts, c)
  {
    if |parts| > 1 {
      JoinAvoids(parts[1..], c, d);
      assert d !in parts[0];
    }
  }

  /** Each separator in a join adds one part: a join of n parts has n - 1 separators. */
  lemma {:induction false} JoinLength(parts: seq<string>, c: char)
    ensures |Join(parts, c)| == (if parts == [] then 0 else |parts| - 1) + SumOfLengths(parts)
  {
    if |parts| > 1 {
      JoinLength(parts[1..], c);
    }
  }

  function SumOfLengths(parts: seq<string>): nat {
    if parts == [] then 0 else |parts[0]| + SumOfLengths(parts[1..])
  }
}
