/**
  * Character and string primitives shared by the pattern scanners and the
  * domain tools: lower-casing, substring search, the character classes of
  * the regular expressions, maximal runs of a class, decimal values and the
  * code-point order Python uses to compare strings.
  */
module Text {

  // ---------- Case folding ----------

  predicate IsUpper(c: char) { 'A' <= c <= 'Z' }

  /** `str.lower` on one character, restricted to the ASCII letters. */
  function LowerChar(c: char): (d: char)
    ensures !IsUpper(d)
    ensures IsUpper(c) ==> d as int == c as int + 32
    ensures !IsUpper(c) ==> d == c
  {
    if IsUpper(c) then (c as int + 32) as char else c
  }

  /** `str.lower`, character by character. */
  function Lower(s: string): (r: string)
    ensures |r| == |s|
    ensures forall i :: 0 <= i < |s| ==> r[i] == LowerChar(s[i])
  {
    seq(|s|, i requires 0 <= i < |s| => LowerChar(s[i]))
  }

  /** Lower-casing twice is lower-casing once. */
  lemma LowerIdempotent(s: string)
    ensures Lower(Lower(s)) == Lower(s)
  {
    assert forall i :: 0 <= i < |s| ==> Lower(Lower(s))[i] == Lower(s)[i];
  }

  /** Two strings equal up to ASCII case. */
  predicate EqualsIgnoreCase(a: string, b: string) { Lower(a) == Lower(b) }

  // ---------- Substrings ----------

  /** `p` occurs in `s` starting at index `k`. */
  predicate OccursAt(s: string, k: nat, p: string) {
    k + |p| <= |s| && s[k..k + |p|] == p
  }

  /** Python's `p in s` on strings. */
  predicate Contains(s: string, p: string) {
    exists k: nat | k <= |s| :: OccursAt(s, k, p)
  }

  predicate StartsWith(s: string, p: string) { OccursAt(s, 0, p) }

  predicate EndsWith(s: string, p: string) {
    |p| <= |s| && s[|s| - |p|..] == p
  }

  /** An occurrence inside an occurrence is an occurrence. */
  lemma ContainsTransitive(s: string, q: string, p: string)
    requires Contains(s, q) && Contains(q, p)
    ensures Contains(s, p)
  {
    var k1: nat :| k1 <= |s| && OccursAt(s, k1, q);
    var k2: nat :| k2 <= |q| && OccursAt(q, k2, p);
    assert q == s[k1..k1 + |q|];
    assert forall t :: 0 <= t < |p| ==> s[k1 + k2 + t] == q[k2 + t] == p[t];
    assert OccursAt(s, k1 + k2, p);
  }

  /**
    * Character-by-character test that `p` occurs at `i`, and the scan of
    * every position from `i` on; both evaluate on literal strings, which
    * the quantified `Contains` does not.
    */
  predicate MatchesAt(s: string, i: nat, p: string, j: nat)
    requires j <= |p|
    decreases |p| - j
  {
    j == |p| || (i + j < |s| && s[i + j] == p[j] && MatchesAt(s, i, p, j + 1))
  }

  predicate AbsentFrom(s: string, p: string, i: nat)
    decreases |s| - i
  {
    i + |p| > |s| || (!MatchesAt(s, i, p, 0) && AbsentFrom(s, p, i + 1))
  }

  lemma {:induction false} MatchesAtOccurs(s: string, i: nat, p: string, j: nat)
    requires j <= |p| && i + |p| <= |s|
    requires s[i..i + j] == p[..j]
    ensures MatchesAt(s, i, p, j) <==> OccursAt(s, i, p)
    decreases |p| - j
  {
    if j < |p| {
      if s[i + j] == p[j] {
        assert s[i..i + j + 1] == p[..j + 1] by {
          assert s[i..i + j + 1] == s[i..i + j] + [s[i + j]];
          assert p[..j + 1] == p[..j] + [p[j]];
        }
        MatchesAtOccurs(s, i, p, j + 1);
      } else {
        assert s[i..i + |p|][j] != p[j];
      }
    } else {
      assert p[..j] == p;
    }
  }

  /** The scan agrees with `Contains`: absent from 0 on means not contained. */
  lemma {:induction false} AbsentFromNotOccurs(s: string, p: string, i: nat)
    requires AbsentFrom(s, p, i)
    ensures forall k: nat :: i <= k ==> !OccursAt(s, k, p)
    decreases |s| - i
  {
    if i + |p| <= |s| {
      MatchesAtOccurs(s, i, p, 0);
      AbsentFromNotOccurs(s, p, i + 1);
    }
  }

  lemma AbsentNotContains(s: string, p: string)
    requires AbsentFrom(s, p, 0)
    ensures !Contains(s, p)
  {
    AbsentFromNotOccurs(s, p, 0);
  }

  /** A pattern holding a character the text lacks does not occur in it. */
  lemma AbsentChar(s: string, p: string, j: nat)
    requires j < |p|
    requires forall i :: 0 <= i < |s| ==> s[i] != p[j]
    ensures !Contains(s, p)
  {
    forall k: nat | k <= |s| ensures !OccursAt(s, k, p) {
      if k + |p| <= |s| {
        assert s[k..k + |p|][j] == s[k + j];
      }
    }
  }

  /** A pattern holding two adjacent characters the text never has side by side does not occur in it. */
  lemma AbsentPair(s: string, p: string, j: nat)
    requires j + 1 < |p|
    requires forall i :: 0 <= i < |s| - 1 ==> !(s[i] == p[j] && s[i + 1] == p[j + 1])
    ensures !Contains(s, p)
  {
    forall k: nat | k <= |s| ensures !OccursAt(s, k, p) {
      if k + |p| <= |s| {
        assert s[k..k + |p|][j] == s[k + j] && s[k..k + |p|][j + 1] == s[k + j + 1];
      }
    }
  }

  // ---------- Character classes of the patterns ----------

  /**
    * The classes the regular expressions use: `\d`, `[A-Za-z]`, `\s`, `\w`,
    * the token class `[a-z0-9]` and the two email classes.
    */
  datatype CharClass = Digit | Letter | Space | Word | TokenChar | EmailLocal | EmailDomain

  predicate IsDigit(c: char) { '0' as int <= c as int <= '9' as int }

  predicate IsLetter(c: char) { 'A' <= c <= 'Z' || 'a' <= c <= 'z' }

  /** Python's Unicode whitespace, the set `\s` and `str.isspace` accept. */
  predicate IsSpace(c: char) {
    var n := c as int;
    (9 <= n <= 13) || (28 <= n <= 32) || n == 0x85 || n == 0xA0 || n == 0x1680
    || (0x2000 <= n <= 0x200A) || n == 0x2028 || n == 0x2029 || n == 0x202F
    || n == 0x205F || n == 0x3000
  }

  predicate InClass(c: char, k: CharClass) {
    match k
    case Digit => IsDigit(c)
    case Letter => IsLetter(c)
    case Space => IsSpace(c)
    case Word => IsLetter(c) || IsDigit(c) || c == '_'
    case TokenChar => 'a' <= c <= 'z' || IsDigit(c)
    case EmailLocal => IsLetter(c) || IsDigit(c) || c == '.' || c == '_' || c == '%' || c == '+' || c == '-'
    case EmailDomain => IsLetter(c) || IsDigit(c) || c == '.' || c == '-'
  }

  /** End of the longest run of class `k` starting at `j`: what a greedy `k*` consumes. */
  function RunEnd(s: string, j: nat, k: CharClass): (e: nat)
    requires j <= |s|
    ensures j <= e <= |s|
    ensures forall t :: j <= t < e ==> InClass(s[t], k)
    ensures e == |s| || !InClass(s[e], k)
    decreases |s| - j
  {
    if j < |s| && InClass(s[j], k) then RunEnd(s, j + 1, k) else j
  }

  /** A run of class `k` from `j` that stops at `e` is the one `RunEnd` finds. */
  lemma {:induction false} RunEndAt(s: string, j: nat, k: CharClass, e: nat)
    requires j <= e <= |s|
    requires forall t :: j <= t < e ==> InClass(s[t], k)
    requires e == |s| || !InClass(s[e], k)
    ensures RunEnd(s, j, k) == e
    decreases e - j
  {
    if j < e {
      RunEndAt(s, j + 1, k, e);
    }
  }

  function DigitValue(c: char): nat
    requires IsDigit(c)
  {
    c as int - '0' as int
  }

  /** The value of a string of decimal digits, as `int(...)` reads it. */
  function DecimalValue(ds: string): nat
    requires forall i :: 0 <= i < |ds| ==> IsDigit(ds[i])
  {
    if |ds| == 0 then 0
    else DecimalValue(ds[..|ds| - 1]) * 10 + DigitValue(ds[|ds| - 1])
  }

  // ---------- Python's order on strings ----------

  /** `a <= b` for Python strings: lexicographic by code point. */
  predicate LexLe(a: string, b: string)
    decreases |a|
  {
    |a| == 0 || (|b| > 0 && (a[0] < b[0] || (a[0] == b[0] && LexLe(a[1..], b[1..]))))
  }

  lemma {:induction false} LexLeTotal(a: string, b: string)
    ensures LexLe(a, b) || LexLe(b, a)
    decreases |a|
  {
    if |a| > 0 && |b| > 0 && a[0] == b[0] {
      LexLeTotal(a[1..], b[1..]);
    }
  }

  lemma {:induction false} LexLeAntisymmetric(a: string, b: string)
    requires LexLe(a, b) && LexLe(b, a)
    ensures a == b
    decreases |a|
  {
    if |a| > 0 {
      LexLeAntisymmetric(a[1..], b[1..]);
      assert a == [a[0]] + a[1..] && b == [b[0]] + b[1..];
    }
  }

  lemma {:induction false} LexLeTransitive(a: string, b: string, c: string)
    requires LexLe(a, b) && LexLe(b, c)
    ensures LexLe(a, c)
    decreases |a|
  {
    if |a| > 0 && a[0] == b[0] && b[0] == c[0] {
      LexLeTransitive(a[1..], b[1..], c[1..]);
    }
  }
}
