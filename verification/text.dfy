/** String helpers with the meaning Python's and Go's string operations give them,
    restricted to ASCII where case or whitespace matter. */
module Text {
  import opened Base

  predicate StartsWith(s: string, prefix: string) {
    |prefix| <= |s| && s[..|prefix|] == prefix
  }

  /** A string starts with whatever it was built from first. */
  lemma StartsWithConcat(p: string, q: string)
    ensures StartsWith(p + q, p)
  {
    assert (p + q)[..|p|] == p;
  }

  /** `sub` occurs in `s` starting at index `i`. */
  predicate OccursAt(s: string, sub: string, i: int) {
    0 <= i && i + |sub| <= |s| && s[i..i + |sub|] == sub
  }

  /** Python's `sub in s`. */
  predicate Contains(s: string, sub: string) {
    exists i :: 0 <= i <= |s| - |sub| && OccursAt(s, sub, i)
  }

  /** Whatever surrounds it, a string contains each of its infixes. */
  lemma ContainsInfix(a: string, b: string, c: string)
    ensures Contains(a + b + c, b)
  {
    assert (a + b + c)[|a|..|a| + |b|] == b;
    assert OccursAt(a + b + c, b, |a|);
  }

  /** ASCII lower-casing of one character (`str.lower` on ASCII text). */
  function LowerChar(c: char): char {
    if 'A' <= c <= 'Z' then (c as int - 'A' as int + 'a' as int) as char else c
  }

  /** `str.lower` on ASCII text: the same length, no upper-case ASCII letter left, and every
      other character, lower-case letters included, kept as it was. */
  function Lower(s: string): (r: string)
    ensures |r| == |s|
    ensures forall i :: 0 <= i < |s| ==> !('A' <= r[i] <= 'Z')
    ensures forall i :: 0 <= i < |s| ==> !('A' <= s[i] <= 'Z') ==> r[i] == s[i]
    ensures forall i :: 0 <= i < |s| ==> 'A' <= s[i] <= 'Z' ==> r[i] as int - s[i] as int == 32
  {
    seq(|s|, i requires 0 <= i < |s| => LowerChar(s[i]))
  }

  /** Lower-casing twice changes nothing more. */
  lemma LowerIdempotent(s: string)
    ensures Lower(Lower(s)) == Lower(s)
  {
  }

  /** Whose whitespace a trim removes. Go's `unicode.IsSpace` on ASCII: space, tab, line feed,
      vertical tab, form feed, carriage return. Python's `str.isspace` on ASCII adds the four
      separators `\x1c`-`\x1f`. */
  datatype Spaces = GoSpaces | PySpaces

  predicate IsSpace(c: char, w: Spaces) {
    c == ' ' || '\t' <= c <= '\r' || (w == PySpaces && '\U{1C}' <= c <= '\U{1F}')
  }

  predicate AllSpace(s: string, w: Spaces) {
    forall k :: 0 <= k < |s| ==> IsSpace(s[k], w)
  }

  /** `s[lo..hi]` is whitespace, stated on `s`'s own indices. */
  predicate SpaceBetween(s: string, lo: int, hi: int, w: Spaces)
    requires 0 <= lo && hi <= |s|
  {
    forall k :: lo <= k < hi ==> IsSpace(s[k], w)
  }

  /** Index of the first non-whitespace character at or after `i` (`|s|` when there is none). */
  function SkipSpace(s: string, w: Spaces, i: nat): (j: nat)
    requires i <= |s|
    ensures i <= j <= |s| && SpaceBetween(s, i, j, w)
    ensures j == |s| || !IsSpace(s[j], w)
    decreases |s| - i
  {
    if i < |s| && IsSpace(s[i], w) then SkipSpace(s, w, i + 1) else i
  }

  /** Walking back from `j` but not past `lo`, the index just after the last non-whitespace
      character (`lo` when there is none); it stays above a non-whitespace `s[lo]`. */
  function SkipSpaceBack(s: string, w: Spaces, lo: nat, j: nat): (i: nat)
    requires lo <= j <= |s|
    ensures lo <= i <= j && SpaceBetween(s, i, j, w)
    ensures i == lo || !IsSpace(s[i - 1], w)
    ensures lo < j && !IsSpace(s[lo], w) ==> lo < i
    decreases j
  {
    if lo < j && IsSpace(s[j - 1], w) then SkipSpaceBack(s, w, lo, j - 1) else j
  }

  /** Python's `str.strip()` (with `PySpaces`) / Go's `strings.TrimSpace` (with `GoSpaces`):
      empty exactly when `s` is all whitespace; otherwise without whitespace at either end,
      and the infix of `s` whose surroundings are all whitespace. */
  function Trim(s: string, w: Spaces): (r: string)
    ensures r == [] <==> AllSpace(s, w)
    ensures r == [] || (!IsSpace(r[0], w) && !IsSpace(r[|r| - 1], w))
    ensures var i := SkipSpace(s, w, 0);
      OccursAt(s, r, i) && SpaceBetween(s, 0, i, w) && SpaceBetween(s, i + |r|, |s|, w)
  {
    var i := SkipSpace(s, w, 0);
    var j := SkipSpaceBack(s, w, i, |s|);
    s[i..j]
  }

  /** Concatenation of a sequence of strings (`"".join(parts)`). */
  function Concat(parts: seq<string>): string {
    if |parts| == 0 then "" else parts[0] + Concat(parts[1..])
  }

  lemma {:induction false} ConcatAppend(a: seq<string>, b: seq<string>)
    ensures Concat(a + b) == Concat(a) + Concat(b)
  {
    if |a| == 0 {
      assert a + b == b;
    } else {
      assert (a + b)[1..] == a[1..] + b;
      ConcatAppend(a[1..], b);
    }
  }

  predicate IsDigit(c: char) {
    '0' <= c <= '9'
  }

  predicate AllDigits(s: string) {
    forall k :: 0 <= k < |s| ==> IsDigit(s[k])
  }

  function DigitChar(d: int): char
    requires 0 <= d < 10
  {
    ('0' as int + d) as char
  }

  /** The number a string of decimal digits denotes (`int(s)` on ASCII digits). */
  function DecimalValue(s: string): nat
    requires AllDigits(s)
  {
    if |s| == 0 then 0
    else DecimalValue(s[..|s| - 1]) * 10 + (s[|s| - 1] as int - '0' as int)
  }

  /** Decimal rendering of a natural number (`str(n)` / `f"{n}"`): non-empty, digits only,
      and read back by `DecimalValue` as the same number. */
  function NatToString(n: nat): (r: string)
    ensures |r| > 0 && AllDigits(r)
    ensures DecimalValue(r) == n
  {
    if n < 10 then [DigitChar(n)]
    else
      var prefix := NatToString(n / 10);
      var r := prefix + [DigitChar(n % 10)];
      assert r[..|r| - 1] == prefix;
      r
  }

  /** Index of the first occurrence of `c`, if any. */
  function IndexOf(s: string, c: char): (r: Option<nat>)
    ensures r.Some? ==> r.value < |s| && s[r.value] == c && forall k :: 0 <= k < r.value ==> s[k] != c
    ensures r.None? <==> forall k :: 0 <= k < |s| ==> s[k] != c
  {
    if s == [] then None
    else if s[0] == c then Some(0)
    else
      match IndexOf(s[1..], c)
      case None => None
      case Some(i) => Some(i + 1)
  }

  /** The first `c` of `a + b` is the head of `b` when `a` holds none. */
  lemma {:induction false} IndexOfAfterPrefix(a: string, b: string, c: char)
    requires forall k :: 0 <= k < |a| ==> a[k] != c
    requires b != [] && b[0] == c
    ensures IndexOf(a + b, c) == Some(|a|)
    decreases |a|
  {
    if a != [] {
      assert (a + b)[0] == a[0];
      assert (a + b)[1..] == a[1..] + b;
      IndexOfAfterPrefix(a[1..], b, c);
    }
  }

  /** The text before the first `c`, or all of `s` (Python's `s.split(c, 1)[0]`, Go's
      `strings.SplitN(s, c, 2)[0]`). */
  function Before(s: string, c: char): (r: string)
    ensures StartsWith(s, r)
    ensures forall k :: 0 <= k < |r| ==> r[k] != c
    ensures |r| < |s| ==> s[|r|] == c
  {
    match IndexOf(s, c)
    case Some(i) => s[..i]
    case None => s
  }

  /** The text of `a + b` before `c` is `a` when `a` holds no `c` and `b` starts with one. */
  lemma BeforeAfterPrefix(a: string, b: string, c: char)
    requires forall k :: 0 <= k < |a| ==> a[k] != c
    requires b != [] && b[0] == c
    ensures Before(a + b, c) == a
  {
    IndexOfAfterPrefix(a, b, c);
    assert (a + b)[..|a|] == a;
  }

  /** Removes every non-overlapping occurrence of `pat`, scanning left to right once
      (Python's `s.replace(pat, "")`): unchanged when `pat` does not occur, and at least one
      copy of `pat` shorter when it does. */
  function RemoveAll(s: string, pat: string): (r: string)
    requires pat != []
    ensures |r| <= |s|
    ensures !Contains(s, pat) ==> r == s
    ensures Contains(s, pat) ==> |r| <= |s| - |pat|
    decreases |s|
  {
    if s == [] then []
    else if StartsWith(s, pat) then
      assert OccursAt(s, pat, 0);
      RemoveAll(s[|pat|..], pat)
    else
      var rest := RemoveAll(s[1..], pat);
      ContainsPastHead(s, pat);
      assert !Contains(s, pat) ==> [s[0]] + s[1..] == s;
      [s[0]] + rest
  }

  /** When `s` does not start with `pat`, it contains `pat` exactly when its tail does. */
  lemma ContainsPastHead(s: string, pat: string)
    requires s != [] && !StartsWith(s, pat)
    ensures Contains(s, pat) <==> Contains(s[1..], pat)
  {
    if Contains(s[1..], pat) {
      var i :| 0 <= i <= |s[1..]| - |pat| && OccursAt(s[1..], pat, i);
      assert s[i + 1..i + 1 + |pat|] == s[1..][i..i + |pat|];
      assert OccursAt(s, pat, i + 1);
    }
    if Contains(s, pat) {
      var i :| 0 <= i <= |s| - |pat| && OccursAt(s, pat, i);
      assert i != 0;
      assert s[1..][i - 1..i - 1 + |pat|] == s[i..i + |pat|];
      assert OccursAt(s[1..], pat, i - 1);
    }
  }

  /** The result differs from the input exactly when the pattern occurs. */
  lemma RemoveAllChangesIffPresent(s: string, pat: string)
    requires pat != []
    ensures RemoveAll(s, pat) == s <==> !Contains(s, pat)
  {
  }

  /** A leading copy of the pattern is removed and the scan goes on after it. */
  lemma RemoveAllLeading(pat: string, t: string)
    requires pat != []
    ensures RemoveAll(pat + t, pat) == RemoveAll(t, pat)
  {
    StartsWithConcat(pat, t);
    assert (pat + t)[|pat|..] == t;
  }
}
