/**
 * The JavaScript string operations the system relies on, with the
 * semantics of the ECMAScript built-ins they stand for: `trim`,
 * `indexOf` with a start position, `slice` with negative indices,
 * `split` on a one-character separator, `includes`, and the
 * decimal and hexadecimal digit conversions.
 */
module Text {

  /** ECMAScript WhiteSpace and LineTerminator code points: what `trim()` strips and `\s` matches. */
  predicate IsSpace(c: char) {
    var n := c as int;
    || n == 0x09 || n == 0x0A || n == 0x0B || n == 0x0C || n == 0x0D
    || n == 0x20 || n == 0xA0 || n == 0x1680 || (0x2000 <= n <= 0x200A)
    || n == 0x2028 || n == 0x2029 || n == 0x202F || n == 0x205F
    || n == 0x3000 || n == 0xFEFF
  }

  predicate IsDigit(c: char) { '0' <= c <= '9' }

  /** The characters `\w` matches, which decide where `\b` stands. */
  predicate IsWordChar(c: char) {
    ('a' <= c <= 'z') || ('A' <= c <= 'Z') || IsDigit(c) || c == '_'
  }

  predicate IsHexDigit(c: char) {
    IsDigit(c) || ('a' <= c <= 'f') || ('A' <= c <= 'F')
  }

  function HexValue(c: char): (v: nat)
    requires IsHexDigit(c)
    ensures v < 16
  {
    if IsDigit(c) then c as int - '0' as int
    else if 'a' <= c <= 'f' then c as int - 'a' as int + 10
    else c as int - 'A' as int + 10
  }

  /** Lower-case hexadecimal digit of `v`. */
  function HexChar(v: nat): (c: char)
    requires v < 16
    ensures IsHexDigit(c) && HexValue(c) == v
  {
    if v < 10 then ('0' as int + v) as char else ('a' as int + v - 10) as char
  }

  // ---------------------------------------------------------------------------
  // trim
  // ---------------------------------------------------------------------------

  /** `trimStart`: drops the leading white space. */
  function TrimStart(s: string): string {
    if s != [] && IsSpace(s[0]) then TrimStart(s[1..]) else s
  }

  /** The trimmed start is a suffix of the text that starts with a non-space, and only white space was dropped. */
  lemma {:induction false} TrimStartShape(s: string)
    ensures |TrimStart(s)| <= |s| && TrimStart(s) == s[|s| - |TrimStart(s)|..]
    ensures TrimStart(s) == [] || !IsSpace(TrimStart(s)[0])
    ensures forall i :: 0 <= i < |s| - |TrimStart(s)| ==> IsSpace(s[i])
  {
    if s != [] && IsSpace(s[0]) {
      TrimStartShape(s[1..]);
      assert s[1..][|s| - 1 - |TrimStart(s)|..] == s[|s| - |TrimStart(s)|..];
      forall i | 1 <= i < |s| - |TrimStart(s)| ensures IsSpace(s[i]) {
        assert s[i] == s[1..][i - 1];
      }
    }
  }

  /** A leading white-space character is dropped. */
  lemma TrimStartSkips(s: string)
    requires s != [] && IsSpace(s[0])
    ensures TrimStart(s) == TrimStart(s[1..])
  {
  }

  /** Text that does not start with white space is kept. */
  lemma TrimStartKeeps(s: string)
    requires s == [] || !IsSpace(s[0])
    ensures TrimStart(s) == s
  {
  }

  /** `trimEnd`: drops the trailing white space. */
  function TrimEnd(s: string): string {
    if s != [] && IsSpace(s[|s| - 1]) then TrimEnd(s[..|s| - 1]) else s
  }

  /** The trimmed end is a prefix of the text that ends with a non-space, and only white space was dropped. */
  lemma {:induction false} TrimEndShape(s: string)
    ensures |TrimEnd(s)| <= |s| && TrimEnd(s) == s[..|TrimEnd(s)|]
    ensures TrimEnd(s) == [] || !IsSpace(TrimEnd(s)[|TrimEnd(s)| - 1])
    ensures forall i :: |TrimEnd(s)| <= i < |s| ==> IsSpace(s[i])
  {
    if s != [] && IsSpace(s[|s| - 1]) {
      var t := s[..|s| - 1];
      TrimEndShape(t);
      assert t[..|TrimEnd(s)|] == s[..|TrimEnd(s)|];
      forall i | |TrimEnd(s)| <= i < |s| - 1 ensures IsSpace(s[i]) {
        assert s[i] == t[i];
      }
    }
  }

  /** `String.prototype.trim`: the text between the leading and the trailing white space. */
  function Trim(s: string): (r: string)
    ensures r == [] || (!IsSpace(r[0]) && !IsSpace(r[|r| - 1]))
  {
    var t := TrimStart(s);
    TrimStartShape(s);
    TrimEndShape(t);
    var r := TrimEnd(t);
    assert r != [] ==> r[0] == t[0];
    r
  }

  /** Trimming removes white space only, and only at the two ends. */
  lemma TrimRemovesOnlySpace(s: string)
    ensures exists a, b :: 0 <= a <= b <= |s| && Trim(s) == s[a..b]
                           && (forall i :: 0 <= i < a ==> IsSpace(s[i]))
                           && (forall i :: b <= i < |s| ==> IsSpace(s[i]))
  {
    var t := TrimStart(s);
    TrimStartShape(s);
    TrimEndShape(t);
    var r := TrimEnd(t);
    var a := |s| - |t|;
    var b := a + |r|;
    assert r == s[a..b];
    forall i | b <= i < |s| ensures IsSpace(s[i]) {
      assert s[i] == t[i - a];
    }
    assert Trim(s) == s[a..b];
  }

  /** Text that neither starts nor ends with white space is its own trim. */
  lemma TrimUnpadded(s: string)
    requires s == [] || (!IsSpace(s[0]) && !IsSpace(s[|s| - 1]))
    ensures Trim(s) == s
  {
  }

  /** Trimming twice is trimming once. */
  lemma TrimTwice(s: string)
    ensures Trim(Trim(s)) == Trim(s)
  {
    TrimUnpadded(Trim(s));
  }

  // ---------------------------------------------------------------------------
  // indexOf, includes, startsWith
  // ---------------------------------------------------------------------------

  predicate OccursAt(s: string, pat: string, i: int) {
    0 <= i && i + |pat| <= |s| && s[i..i + |pat|] == pat
  }

  /** The first position at or after `i` where `pat` occurs, or -1. */
  function FindFrom(s: string, pat: string, i: nat): (r: int)
    requires i <= |s|
    ensures r == -1 || (i <= r && OccursAt(s, pat, r))
    ensures forall j :: i <= j && (r == -1 || j < r) ==> !OccursAt(s, pat, j)
    decreases |s| - i
  {
    if OccursAt(s, pat, i) then i
    else if i == |s| then -1
    else FindFrom(s, pat, i + 1)
  }

  /** A start position as `indexOf` reads it: clamped into `[0, len]`. */
  function ClampStart(k: int, len: nat): (r: nat)
    ensures r <= len
  {
    if k < 0 then 0 else if k > len then len else k
  }

  /** `s.indexOf(pat, from)`. */
  function IndexOfFrom(s: string, pat: string, from: int): int {
    FindFrom(s, pat, ClampStart(from, |s|))
  }

  /** `s.indexOf(pat)`. */
  function IndexOf(s: string, pat: string): int {
    FindFrom(s, pat, 0)
  }

  /** `s.includes(pat)`. */
  predicate Includes(s: string, pat: string) {
    IndexOf(s, pat) >= 0
  }

  lemma IncludesIffOccurs(s: string, pat: string, i: int)
    requires OccursAt(s, pat, i)
    ensures Includes(s, pat) && 0 <= IndexOf(s, pat) <= i
  {
  }

  /** Text found in a piece is found in any text built around that piece. */
  lemma IncludesWithin(x: string, y: string, z: string, pat: string)
    requires Includes(y, pat)
    ensures Includes(x + y + z, pat)
  {
    var k := IndexOf(y, pat);
    var w := x + y + z;
    assert w[|x| + k..|x| + k + |pat|] == y[k..k + |pat|];
    IncludesIffOccurs(w, pat, |x| + k);
  }

  /** `indexOf` of a one-character pattern is the first position holding that character. */
  lemma IndexOfFirstChar(s: string, c: char, i: nat)
    requires i < |s| && s[i] == c && forall j :: 0 <= j < i ==> s[j] != c
    ensures IndexOf(s, [c]) == i
  {
    assert OccursAt(s, [c], i) by {
      assert s[i..i + 1] == [s[i]];
    }
    var k := IndexOf(s, [c]);
    assert s[k..k + 1][0] == s[k];
  }

  /** `indexOf` of a character the text does not hold is -1. */
  lemma IndexOfAbsentChar(s: string, c: char)
    requires forall j :: 0 <= j < |s| ==> s[j] != c
    ensures IndexOf(s, [c]) == -1
  {
    forall j | 0 <= j < |s|
      ensures !OccursAt(s, [c], j)
    {
      assert s[j..j + 1][0] == s[j];
    }
  }

  // ---------------------------------------------------------------------------
  // slice
  // ---------------------------------------------------------------------------

  /** A `slice` bound: negative values count back from the end; the result lies in `[0, len]`. */
  function RelativeIndex(k: int, len: nat): (r: nat)
    ensures r <= len
    ensures 0 <= k <= len ==> r == k
    ensures -(len as int) <= k < 0 ==> r == len + k
  {
    if k < 0 then (if len + k < 0 then 0 else len + k)
    else if k > len then len
    else k
  }

  /** `s.slice(start, end)`. */
  function Slice(s: string, start: int, end: int): string {
    var a, b := RelativeIndex(start, |s|), RelativeIndex(end, |s|);
    if a < b then s[a..b] else []
  }

  /** `s.slice(start)`. */
  function SliceFrom(s: string, start: int): string {
    s[RelativeIndex(start, |s|)..]
  }

  /** A character followed by the slice after it is the slice from that character. */
  lemma ConsSlice(s: string, k: nat, m: nat, tail: string)
    requires k < m <= |s|
    ensures [s[k]] + (s[k + 1..m] + tail) == s[k..m] + tail
  {
    assert [s[k]] + s[k + 1..m] == s[k..m];
  }

  /** The three parts of a concatenation are where they were put. */
  lemma ConcatParts(a: string, b: string, c: string)
    ensures |a + b + c| == |a| + |b| + |c|
    ensures (a + b + c)[..|a|] == a
    ensures (a + b + c)[|a|..|a| + |b|] == b
    ensures (a + b + c)[|a| + |b|..] == c
  {
  }

  /** `s.slice(0, k)` for `k` within the text is its first `k` characters. */
  lemma SlicePrefix(s: string, k: nat)
    requires k <= |s|
    ensures Slice(s, 0, k) == s[..k]
  {
  }

  // ---------------------------------------------------------------------------
  // split / join on one character
  // ---------------------------------------------------------------------------

  /** `s.split(sep)` for a one-character separator. */
  function Split(s: string, sep: char): (r: seq<string>)
    ensures |r| >= 1
  {
    if s == [] then [""]
    else
      var rest := Split(s[1..], sep);
      if s[0] == sep then [""] + rest else [[s[0]] + rest[0]] + rest[1..]
  }

  /** `parts.join(sep)`. */
  function Join(parts: seq<string>, sep: char): string {
    if |parts| == 0 then ""
    else if |parts| == 1 then parts[0]
    else parts[0] + [sep] + Join(parts[1..], sep)
  }

  /** Splitting loses nothing: joining the pieces back gives the input. */
  lemma {:induction false} JoinSplit(s: string, sep: char)
    ensures Join(Split(s, sep), sep) == s
  {
    if s != [] {
      var rest := Split(s[1..], sep);
      JoinSplit(s[1..], sep);
      if s[0] != sep {
        if |rest| > 1 {
          assert [[s[0]] + rest[0]] + rest[1..] == [[s[0]] + rest[0]] + rest[1..][..];
          assert ([[s[0]] + rest[0]] + rest[1..])[1..] == rest[1..];
        }
      }
    }
  }

  /** No piece of a split contains the separator. */
  lemma {:induction false} SplitPiecesHaveNoSeparator(s: string, sep: char)
    ensures forall i :: 0 <= i < |Split(s, sep)| ==> sep !in Split(s, sep)[i]
  {
    if s != [] {
      SplitPiecesHaveNoSeparator(s[1..], sep);
    }
  }

  // ---------------------------------------------------------------------------
  // decimal numbers
  // ---------------------------------------------------------------------------

  predicate AllDigits(s: string) {
    forall i :: 0 <= i < |s| ==> IsDigit(s[i])
  }

  function DigitChar(d: nat): (c: char)
    requires d < 10
    ensures IsDigit(c)
  {
    ('0' as int + d) as char
  }

  /** `n.toString()` for a non-negative integer. */
  function NatToString(n: nat): (r: string)
    ensures |r| >= 1 && AllDigits(r)
    ensures (r[0] == '0') == (n == 0)
  {
    if n < 10 then [DigitChar(n)] else NatToString(n / 10) + [DigitChar(n % 10)]
  }

  /** `n.toString()` for any integer. */
  function IntToString(n: int): string {
    if n < 0 then "-" + NatToString(-n) else NatToString(n)
  }

  /** The value of a string of decimal digits (`parseInt(s, 10)` on such a string). */
  function DigitsValue(s: string): nat
    requires AllDigits(s)
  {
    if s == [] then 0 else DigitsValue(s[..|s| - 1]) * 10 + (s[|s| - 1] as int - '0' as int)
  }

  /** Printing then reading back a number gives the number. */
  lemma {:induction false} DigitsValueOfNatToString(n: nat)
    ensures DigitsValue(NatToString(n)) == n
  {
    if n >= 10 {
      var r := NatToString(n);
      DigitsValueOfNatToString(n / 10);
      assert r[..|r| - 1] == NatToString(n / 10);
    }
  }

  /** Reading then printing a digit string without a leading zero gives the string back. */
  lemma {:induction false} NatToStringOfDigitsValue(s: string)
    requires AllDigits(s) && |s| >= 1 && (s[0] != '0' || |s| == 1)
    ensures NatToString(DigitsValue(s)) == s
  {
    var p := s[..|s| - 1];
    var last := s[|s| - 1] as int - '0' as int;
    if |s| == 1 {
    } else {
      NatToStringOfDigitsValue(p);
      assert DigitsValue(p) >= 1 by {
        LeadingDigitPositive(p);
      }
      assert s == p + [s[|s| - 1]];
    }
  }

  lemma {:induction false} LeadingDigitPositive(s: string)
    requires AllDigits(s) && |s| >= 1 && s[0] != '0'
    ensures DigitsValue(s) >= 1
  {
    if |s| > 1 {
      LeadingDigitPositive(s[..|s| - 1]);
    }
  }

  // ---------------------------------------------------------------------------
  // lexicographic order (how the store orders text and date columns)
  // ---------------------------------------------------------------------------

  /** `a` sorts strictly before `b`, character by character, a proper prefix first. */
  predicate LexLess(a: string, b: string) {
    if a == [] then b != []
    else if b == [] then false
    else if a[0] != b[0] then a[0] < b[0]
    else LexLess(a[1..], b[1..])
  }

  lemma {:induction false} LexLessIrreflexive(a: string)
    ensures !LexLess(a, a)
  {
    if a != [] {
      LexLessIrreflexive(a[1..]);
    }
  }

  lemma {:induction false} LexLessTransitive(a: string, b: string, c: string)
    requires LexLess(a, b) && LexLess(b, c)
    ensures LexLess(a, c)
  {
    if a != [] && b != [] && c != [] && a[0] == b[0] && b[0] == c[0] {
      LexLessTransitive(a[1..], b[1..], c[1..]);
    }
  }
}
