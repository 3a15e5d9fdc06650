/**
 * ASCII text helpers standing in for the Python string operations the
 * core uses: `strip`, `upper`, `lower`, `in` on strings, `join`,
 * `findall` of a character class, `split()` and string ordering.
 */
module Text {
  import opened Common

  // ----- character classes -----

  /** `str.isspace` restricted to ASCII (also what `\s` matches there). */
  predicate IsSpace(c: char) {
    c == ' ' || c == '\t' || c == '\n' || c == '\r' || c == '\U{000B}' || c == '\U{000C}'
    || ('\U{001C}' <= c <= '\U{001F}')
  }

  predicate IsDigit(c: char) { '0' <= c <= '9' }
  predicate IsUpperLetter(c: char) { 'A' <= c <= 'Z' }
  predicate IsLowerLetter(c: char) { 'a' <= c <= 'z' }
  predicate IsLetter(c: char) { IsUpperLetter(c) || IsLowerLetter(c) }
  /** `[A-Za-z0-9]` */
  predicate IsAlnum(c: char) { IsLetter(c) || IsDigit(c) }
  /** `[0-9A-Z]`, the alphabet of code characters. */
  predicate IsCodeChar(c: char) { IsDigit(c) || IsUpperLetter(c) }

  predicate AllCodeChars(s: string) {
    forall i :: 0 <= i < |s| ==> IsCodeChar(s[i])
  }

  function UpperChar(c: char): char {
    if IsLowerLetter(c) then (c as int - 32) as char else c
  }

  function LowerChar(c: char): char {
    if IsUpperLetter(c) then (c as int + 32) as char else c
  }

  function Upper(s: string): (r: string)
    ensures |r| == |s|
    ensures forall i :: 0 <= i < |s| ==> r[i] == UpperChar(s[i])
  {
    seq(|s|, i requires 0 <= i < |s| => UpperChar(s[i]))
  }

  function Lower(s: string): (r: string)
    ensures |r| == |s|
    ensures forall i :: 0 <= i < |s| ==> r[i] == LowerChar(s[i])
  {
    seq(|s|, i requires 0 <= i < |s| => LowerChar(s[i]))
  }

  lemma UpperCodeChars(s: string)
    requires AllCodeChars(s)
    ensures Upper(s) == s
  {
  }

  // ----- strip -----

  function TrimStart(s: string, p: char -> bool): (r: string)
    ensures r == [] || !p(r[0])
    ensures |r| <= |s|
  {
    if s != [] && p(s[0]) then TrimStart(s[1..], p) else s
  }

  function TrimEnd(s: string, p: char -> bool): (r: string)
    ensures r == [] || !p(r[|r| - 1])
    ensures |r| <= |s|
  {
    if s != [] && p(s[|s| - 1]) then TrimEnd(s[..|s| - 1], p) else s
  }

  /** `TrimStart` keeps a suffix of its input. */
  lemma {:induction false} TrimStartSuffix(s: string, p: char -> bool)
    ensures s[|s| - |TrimStart(s, p)|..] == TrimStart(s, p)
  {
    if s != [] && p(s[0]) {
      TrimStartSuffix(s[1..], p);
      assert s[1..][|s| - 1 - |TrimStart(s, p)|..] == s[|s| - |TrimStart(s, p)|..];
    }
  }

  /** `TrimEnd` keeps a prefix of its input. */
  lemma {:induction false} TrimEndPrefix(s: string, p: char -> bool)
    ensures TrimEnd(s, p) == s[..|TrimEnd(s, p)|]
  {
    if s != [] && p(s[|s| - 1]) {
      TrimEndPrefix(s[..|s| - 1], p);
      assert s[..|s| - 1][..|TrimEnd(s, p)|] == s[..|TrimEnd(s, p)|];
    }
  }

  /** Every character `TrimStart` drops satisfies `p`. */
  lemma {:induction false} TrimStartDrops(s: string, p: char -> bool)
    ensures forall i :: 0 <= i < |s| - |TrimStart(s, p)| ==> p(s[i])
  {
    if s != [] && p(s[0]) {
      TrimStartDrops(s[1..], p);
      forall i | 0 < i < |s| - |TrimStart(s, p)| ensures p(s[i]) {
        assert s[i] == s[1..][i - 1];
      }
    }
  }

  /** Every character `TrimEnd` drops satisfies `p`. */
  lemma {:induction false} TrimEndDrops(s: string, p: char -> bool)
    ensures forall i :: |TrimEnd(s, p)| <= i < |s| ==> p(s[i])
  {
    if s != [] && p(s[|s| - 1]) {
      TrimEndDrops(s[..|s| - 1], p);
      forall i | |TrimEnd(s, p)| <= i < |s| - 1 ensures p(s[i]) {
        assert s[i] == s[..|s| - 1][i];
      }
    }
  }

  /** `s.strip(chars)`: drops characters satisfying `p` from both ends. */
  function StripWith(s: string, p: char -> bool): (r: string)
    ensures r == [] || (!p(r[0]) && !p(r[|r| - 1]))
    ensures |r| <= |s|
  {
    TrimEndPrefix(TrimStart(s, p), p);
    TrimEnd(TrimStart(s, p), p)
  }

  /** `s.strip()` */
  function Strip(s: string): string {
    StripWith(s, IsSpace)
  }

  /** `s.strip().upper()`, the normalisation every engine query applies. */
  function Normalize(s: string): string {
    Upper(Strip(s))
  }

  lemma {:induction false} TrimStartNoop(s: string, p: char -> bool)
    requires s == [] || !p(s[0])
    ensures TrimStart(s, p) == s
  {
  }

  lemma {:induction false} TrimEndNoop(s: string, p: char -> bool)
    requires s == [] || !p(s[|s| - 1])
    ensures TrimEnd(s, p) == s
  {
  }

  /** A string of code characters is its own normal form. */
  lemma NormalizeCode(s: string)
    requires AllCodeChars(s)
    ensures Normalize(s) == s
  {
    TrimStartNoop(s, IsSpace);
    TrimEndNoop(s, IsSpace);
    UpperCodeChars(s);
  }

  lemma UpperKeepsSpace(c: char)
    ensures IsSpace(UpperChar(c)) == IsSpace(c)
  {
  }

  /** Normalising twice is normalising once. */
  lemma NormalizeIdempotent(s: string)
    ensures Normalize(Normalize(s)) == Normalize(s)
  {
    var t := Strip(s);
    var u := Upper(t);
    assert u == Normalize(s);
    assert u == [] || (!IsSpace(u[0]) && !IsSpace(u[|u| - 1])) by {
      if u != [] {
        assert !IsSpace(t[0]) && !IsSpace(t[|t| - 1]);
        UpperKeepsSpace(t[0]);
        UpperKeepsSpace(t[|t| - 1]);
      }
    }
    TrimStartNoop(u, IsSpace);
    TrimEndNoop(u, IsSpace);
    assert Strip(u) == u;
    UpperIdempotent(t);
    assert Upper(u) == u;
    assert Normalize(u) == Upper(Strip(u));
  }

  lemma UpperIdempotent(s: string)
    ensures Upper(Upper(s)) == Upper(s)
  {
  }

  // ----- substring, join, numerals -----

  /** Python's `sub in s`. */
  predicate Contains(s: string, sub: string) {
    sub <= s || (s != [] && Contains(s[1..], sub))
  }

  /** `sep.join(parts)` */
  function Join(sep: string, parts: seq<string>): (r: string)
    ensures parts == [] ==> r == ""
    ensures |parts| == 1 ==> r == parts[0]
  {
    if parts == [] then ""
    else if |parts| == 1 then parts[0]
    else parts[0] + sep + Join(sep, parts[1..])
  }

  function DigitChar(d: nat): (c: char)
    requires d < 10
    ensures IsDigit(c)
  {
    ('0' as int + d) as char
  }

  /** `str(n)` for a natural number. */
  function NatToString(n: nat): (r: string)
    ensures |r| >= 1
    ensures forall i :: 0 <= i < |r| ==> IsDigit(r[i])
  {
    if n < 10 then [DigitChar(n)] else NatToString(n / 10) + [DigitChar(n % 10)]
  }

  /** `str(n)` for an integer. */
  function IntToString(n: int): string {
    if n < 0 then "-" + NatToString(-n) else NatToString(n)
  }

  // ----- token runs -----

  /** Length of the longest prefix of `s` whose characters satisfy `p`. */
  function RunLen(s: string, p: char -> bool): (k: nat)
    ensures k <= |s|
    ensures forall i :: 0 <= i < k ==> p(s[i])
    ensures k < |s| ==> !p(s[k])
  {
    if s != [] && p(s[0]) then 1 + RunLen(s[1..], p) else 0
  }

  /**
   * The maximal runs of characters satisfying `p`, in order: Python's
   * `re.findall("[class]+", s)`, and `s.split()` when `p` is "not a space".
   */
  function Runs(s: string, p: char -> bool): (r: seq<string>)
    ensures forall k :: 0 <= k < |r| ==> |r[k]| > 0 && forall i :: 0 <= i < |r[k]| ==> p(r[k][i])
    decreases |s|
  {
    if s == [] then []
    else if !p(s[0]) then Runs(s[1..], p)
    else
      var k := RunLen(s, p);
      [s[..k]] + Runs(s[k..], p)
  }

  /** Every character of every run is a character of `s`. */
  lemma {:induction false} RunsFrom(s: string, p: char -> bool)
    ensures forall k, i :: 0 <= k < |Runs(s, p)| && 0 <= i < |Runs(s, p)[k]| ==> Runs(s, p)[k][i] in s
    decreases |s|
  {
    if s != [] {
      if !p(s[0]) {
        RunsFrom(s[1..], p);
        assert forall x :: x in s[1..] ==> x in s;
      } else {
        var k := RunLen(s, p);
        RunsFrom(s[k..], p);
        assert forall x :: x in s[k..] ==> x in s;
        assert forall x :: x in s[..k] ==> x in s;
        assert Runs(s, p) == [s[..k]] + Runs(s[k..], p);
        forall j, i | 0 <= j < |Runs(s, p)| && 0 <= i < |Runs(s, p)[j]| ensures Runs(s, p)[j][i] in s {
          if j > 0 {
            assert Runs(s, p)[j] == Runs(s[k..], p)[j - 1];
          }
        }
      }
    }
  }

  /** A string made only of characters satisfying `p` is one run. */
  lemma RunsWhole(s: string, p: char -> bool)
    requires s != [] && forall i :: 0 <= i < |s| ==> p(s[i])
    ensures Runs(s, p) == [s]
  {
    assert RunLen(s, p) == |s|;
    assert s[..|s|] == s && s[|s|..] == [];
  }

  predicate NotSpace(c: char) { !IsSpace(c) }

  /** Python's `s.split()` with no argument. */
  function SplitWhitespace(s: string): (r: seq<string>)
    ensures forall k :: 0 <= k < |r| ==> |r[k]| > 0 && forall i :: 0 <= i < |r[k]| ==> !IsSpace(r[k][i])
  {
    Runs(s, NotSpace)
  }

  /** A single word splits into itself. */
  lemma SplitWhitespaceWord(w: string)
    requires w != [] && forall i :: 0 <= i < |w| ==> !IsSpace(w[i])
    ensures SplitWhitespace(w) == [w]
  {
    RunsWhole(w, NotSpace);
  }

  // ----- lexicographic order (Python's `<=` on str) -----

  predicate LexLe(a: string, b: string) {
    a == [] || (b != [] && (a[0] < b[0] || (a[0] == b[0] && LexLe(a[1..], b[1..]))))
  }

  predicate LexLess(a: string, b: string) {
    LexLe(a, b) && a != b
  }

  lemma {:induction false} LexLeTotal(a: string, b: string)
    ensures LexLe(a, b) || LexLe(b, a)
  {
    if a != [] && b != [] && a[0] == b[0] {
      LexLeTotal(a[1..], b[1..]);
    }
  }

  lemma {:induction false} LexLeTransitive(a: string, b: string, c: string)
    requires LexLe(a, b) && LexLe(b, c)
    ensures LexLe(a, c)
  {
    if a != [] && b != [] && c != [] && a[0] == b[0] == c[0] {
      LexLeTransitive(a[1..], b[1..], c[1..]);
    }
  }

  lemma {:induction false} LexLeAntisymmetric(a: string, b: string)
    requires LexLe(a, b) && LexLe(b, a)
    ensures a == b
  {
    if a != [] && b != [] {
      LexLeAntisymmetric(a[1..], b[1..]);
      assert a == [a[0]] + a[1..] && b == [b[0]] + b[1..];
    }
  }

  lemma LexLeIsTotalPreorder()
    ensures TotalPreorder(LexLe)
  {
    forall a, b ensures LexLe(a, b) || LexLe(b, a) {
      LexLeTotal(a, b);
    }
    forall a, b, c | LexLe(a, b) && LexLe(b, c) ensures LexLe(a, c) {
      LexLeTransitive(a, b, c);
    }
  }

  predicate StrictlyIncreasing(s: seq<string>) {
    forall i, j :: 0 <= i < j < |s| ==> LexLess(s[i], s[j])
  }

  /** Python's `sorted` on a list of strings. */
  function SortStrings(s: seq<string>): (r: seq<string>)
    ensures multiset(r) == multiset(s)
    ensures SortedBy(r, LexLe)
  {
    LexLeIsTotalPreorder();
    SortSorted(s, LexLe);
    Sort(s, LexLe)
  }

  /** Sorting a duplicate-free list of strings yields a strictly increasing one with the same elements. */
  lemma SortStringsDistinct(s: seq<string>)
    requires NoDup(s)
    ensures StrictlyIncreasing(SortStrings(s)) && NoDup(SortStrings(s))
    ensures forall x :: x in SortStrings(s) <==> x in s
  {
    var r := SortStrings(s);
    PermutationNoDup(s, r);
    MultisetElements(s, r);
  }

  predicate CharLe(a: char, b: char) { a <= b }

  /** Python's `sorted` on a collection of one-character keys. */
  function SortChars(s: seq<char>): (r: seq<char>)
    ensures multiset(r) == multiset(s)
    ensures SortedBy(r, CharLe)
  {
    SortSorted(s, CharLe);
    Sort(s, CharLe)
  }
}
