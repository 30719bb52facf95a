/** The vendor "resets in ~Ns" hint the Replicate adapter looks for in an error message.

    The source searches with the raw-string pattern `reset(?:s)? in ~?(\\d+)s`, ignoring case.
    In a raw string `\\d` is an escaped backslash followed by `d`, so the group matches a
    literal backslash and a run of `d`s, never digits, and `float()` of such a group raises.
    Both readings are modelled: `ReadHintAsWritten` (the pattern as written) and `VendorHint`
    (the evidently intended digit group). `Replicate.Run` keeps the pattern as written;
    `Replicate.RunIntended` uses the corrected one. */
module RetryHint {
  import opened Base
  import opened Text

  /** The capture group of the pattern: decimal digits, or (as written) `\` then `d`s. */
  datatype GroupPattern = DecimalDigits | BackslashThenDs

  /** Case-insensitive match of the lower-case literal `lit` at index `i`. */
  predicate LiteralAt(s: string, i: nat, lit: string) {
    i + |lit| <= |s| && forall k :: 0 <= k < |lit| ==> LowerChar(s[i + k]) == lit[k]
  }

  /** Characters the repeated part of the group accepts. */
  predicate InRun(c: char, p: GroupPattern) {
    match p
    case DecimalDigits => IsDigit(c)
    case BackslashThenDs => LowerChar(c) == 'd'
  }

  /** End of the longest run of `InRun` characters starting at `i` (a greedy `+`/`*`). */
  function RunEnd(s: string, i: nat, p: GroupPattern): (e: nat)
    requires i <= |s|
    ensures i <= e <= |s|
    ensures forall k :: i <= k < e ==> InRun(s[k], p)
    ensures e < |s| ==> !InRun(s[e], p)
    decreases |s| - i
  {
    if i < |s| && InRun(s[i], p) then RunEnd(s, i + 1, p) else i
  }

  /** End of the capture group when it starts at `i`, or `None` when it cannot. */
  function GroupEnd(s: string, i: nat, p: GroupPattern): (r: Option<nat>)
    requires i <= |s|
    ensures r.Some? ==> i < r.value <= |s|
    ensures r.Some? && p == DecimalDigits ==> AllDigits(s[i..r.value])
    ensures r.Some? && p == BackslashThenDs ==> s[i] == '\\'
    ensures r.Some? ==> r.value < |s| ==> !InRun(s[r.value], p)
  {
    match p
    case DecimalDigits =>
      var e := RunEnd(s, i, p);
      if e > i then Some(e) else None
    case BackslashThenDs =>
      if i < |s| && s[i] == '\\' then
        var e := RunEnd(s, i + 1, p);
        if e > i + 1 then Some(e) else None
      else None
  }

  /** The pattern anchored at `i`: the bounds of its capture group, or `None`.
      Greedy choices never need undoing here: after `reset` an `s` that is taken is never
      the first character of ` in `, a `~` is never the start of the group, and a group
      character is never the closing `s`. */
  function MatchAt(s: string, i: nat, p: GroupPattern): (r: Option<(nat, nat)>)
    requires i <= |s|
    ensures r.Some? ==> i <= r.value.0 < r.value.1 < |s|
    ensures r.Some? && p == DecimalDigits ==> AllDigits(s[r.value.0..r.value.1])
    ensures r.Some? && p == BackslashThenDs ==> s[r.value.0] == '\\'
  {
    if !LiteralAt(s, i, "reset") then None
    else
      var j := if i + 5 < |s| && LowerChar(s[i + 5]) == 's' then i + 6 else i + 5;
      if !LiteralAt(s, j, " in ") then None
      else
        var g := if j + 4 < |s| && s[j + 4] == '~' then j + 5 else j + 4;
        match GroupEnd(s, g, p)
        case None => None
        case Some(e) => if e < |s| && LowerChar(s[e]) == 's' then Some((g, e)) else None
  }

  /** The first of `m(i)`, `m(i + 1)`, ..., `m(n)` that is a `Some`: a scan for the
      leftmost position where a test succeeds. */
  function FirstSome<T>(m: nat -> Option<T>, i: nat, n: nat): (r: Option<T>)
    ensures r.Some? ==> exists j :: i <= j <= n && m(j) == r
    decreases n + 1 - i
  {
    if i > n then None
    else match m(i)
      case Some(g) => Some(g)
      case None => FirstSome(m, i + 1, n)
  }

  /** The scan finds nothing exactly when every test fails; otherwise it finds the result
      at the first position whose test succeeds. */
  lemma {:induction false} FirstSomeMeaning<T>(m: nat -> Option<T>, i: nat, n: nat)
    ensures FirstSome(m, i, n).None? <==> forall j :: i <= j <= n ==> m(j).None?
    ensures FirstSome(m, i, n).Some? ==>
      exists j :: i <= j <= n && m(j) == FirstSome(m, i, n) && forall k :: i <= k < j ==> m(k).None?
    decreases n + 1 - i
  {
    if i <= n && m(i).None? {
      FirstSomeMeaning(m, i + 1, n);
    }
  }

  /** When the test succeeds at `j` and fails everywhere from `i` up to it, the scan from
      `i` finds the result at `j`. */
  lemma {:induction false} FirstSomeAt<T>(m: nat -> Option<T>, i: nat, j: nat, n: nat)
    requires i <= j <= n && m(j).Some?
    requires forall k :: i <= k < j ==> m(k).None?
    ensures FirstSome(m, i, n) == m(j)
    decreases j - i
  {
    if i < j {
      FirstSomeAt(m, i + 1, j, n);
    }
  }

  /** The pattern anchored at each position of `s`, as a test for the scan. */
  function Anchored(s: string, p: GroupPattern): nat -> Option<(nat, nat)> {
    (j: nat) => if j <= |s| then MatchAt(s, j, p) else None
  }

  /** `re.search`: the pattern at the leftmost position from `i` on where it matches. */
  function SearchFrom(s: string, i: nat, p: GroupPattern): (r: Option<(nat, nat)>)
    requires i <= |s|
    ensures r.Some? ==> i <= r.value.0 < r.value.1 < |s|
    ensures r.Some? && p == DecimalDigits ==> AllDigits(s[r.value.0..r.value.1])
    ensures r.Some? && p == BackslashThenDs ==> s[r.value.0] == '\\'
  {
    var r := FirstSome(Anchored(s, p), i, |s|);
    AnchoredFound(s, i, p, r);
    r
  }

  /** What the scan finds is the pattern's match at some position from `i` on. */
  lemma AnchoredFound(s: string, i: nat, p: GroupPattern, r: Option<(nat, nat)>)
    requires i <= |s| && r == FirstSome(Anchored(s, p), i, |s|)
    ensures r.Some? ==> exists j :: i <= j <= |s| && MatchAt(s, j, p) == r
  {
    if r.Some? {
      var j :| i <= j <= |s| && Anchored(s, p)(j) == r;
      assert MatchAt(s, j, p) == r;
    }
  }

  /** The search finds nothing exactly when the pattern matches nowhere from `i` on;
      otherwise what it finds is the match at the first position where there is one. */
  lemma SearchFromMeaning(s: string, i: nat, p: GroupPattern)
    requires i <= |s|
    ensures SearchFrom(s, i, p).None? <==> forall j :: i <= j <= |s| ==> MatchAt(s, j, p).None?
    ensures SearchFrom(s, i, p).Some? ==>
      exists j :: i <= j <= |s| && MatchAt(s, j, p) == SearchFrom(s, i, p) &&
        forall k :: i <= k < j ==> MatchAt(s, k, p).None?
  {
    forall j | i <= j <= |s| ensures Anchored(s, p)(j) == MatchAt(s, j, p) { }
    FirstSomeMeaning(Anchored(s, p), i, |s|);
  }

  /** When the pattern matches at `j` and nowhere from `i` up to it, the search from `i`
      finds the match at `j`. */
  lemma SearchFindsFirst(s: string, i: nat, j: nat, p: GroupPattern)
    requires i <= j <= |s| && MatchAt(s, j, p).Some?
    requires forall k :: i <= k < j ==> MatchAt(s, k, p).None?
    ensures SearchFrom(s, i, p) == MatchAt(s, j, p)
  {
    forall k | i <= k <= j ensures Anchored(s, p)(k) == MatchAt(s, k, p) { }
    FirstSomeAt(Anchored(s, p), i, j, |s|);
  }

  /** What the hint parser yields: nothing, a number of seconds, or a `ValueError` from
      `float()` on the captured text. */
  datatype HintReading = NoHint | Hint(seconds: nat) | HintRaises(group: string)

  /** `float()` on a group one of the two patterns can capture: a run of ASCII digits reads
      as its value, and a backslash followed by `d`s raises. Python's `float` accepts a
      wider syntax (signs, a point, exponents, surrounding spaces, "inf"), which no such group
      can hold, so only these two shapes are modelled. */
  function ReadNumber(group: string): (r: HintReading)
    ensures r.Hint? <==> |group| > 0 && AllDigits(group)
    ensures r.Hint? ==> r.seconds == DecimalValue(group)
  {
    if |group| > 0 && AllDigits(group) then Hint(DecimalValue(group)) else HintRaises(group)
  }

  /** The hint parser as written: it can never produce a number of seconds; either the
      pattern does not match, or it matched a backslash group that `float()` rejects. */
  function ReadHintAsWritten(message: string): (r: HintReading)
    ensures !r.Hint?
  {
    match SearchFrom(message, 0, BackslashThenDs)
    case None => NoHint
    case Some(g) =>
      var group := message[g.0..g.1];
      assert !IsDigit(group[0]);
      ReadNumber(group)
  }

  /** The hint parser as intended: the seconds the first "reset(s) in ~N s" mentions. */
  function VendorHint(message: string): (r: Option<nat>)
    ensures r.Some? ==> exists i, j :: 0 <= i < j <= |message| && AllDigits(message[i..j]) && r.value == DecimalValue(message[i..j])
  {
    match SearchFrom(message, 0, DecimalDigits)
    case None => None
    case Some(g) => Some(DecimalValue(message[g.0..g.1]))
  }

  /** The intended hint is `None` exactly when the pattern matches nowhere; otherwise it
      is the value of the digit group of the leftmost match. */
  lemma VendorHintMeaning(message: string)
    ensures VendorHint(message).None? <==>
      forall j :: 0 <= j <= |message| ==> MatchAt(message, j, DecimalDigits).None?
    ensures VendorHint(message).Some? ==>
      exists j :: 0 <= j <= |message| && MatchAt(message, j, DecimalDigits).Some? &&
        (forall k :: 0 <= k < j ==> MatchAt(message, k, DecimalDigits).None?) &&
        VendorHint(message).value ==
          DecimalValue(message[MatchAt(message, j, DecimalDigits).value.0..MatchAt(message, j, DecimalDigits).value.1])
  {
    SearchFromMeaning(message, 0, DecimalDigits);
  }

  /** The canonical vendor wording is read as intended wherever it stands: after a preamble
      that holds no "reset" in any case, `"resets in ~" + N + "s"` gives `N` seconds,
      whatever follows. */
  lemma VendorHintReadsSeconds(pre: string, digits: string, rest: string)
    requires |digits| > 0 && AllDigits(digits)
    requires forall k :: 0 <= k < |pre| ==> !LiteralAt(pre, k, "reset")
    ensures VendorHint(pre + "resets in ~" + digits + "s" + rest) == Some(DecimalValue(digits))
  {
    var s := pre + "resets in ~" + digits + "s" + rest;
    CanonicalPieces(pre, digits, rest, s);
    HintAfterWording(pre, digits, s);
  }

  lemma HintAfterWording(pre: string, digits: string, s: string)
    requires |digits| > 0 && AllDigits(digits)
    requires forall k :: 0 <= k < |pre| ==> !LiteralAt(pre, k, "reset")
    requires CanonicalAt(s, |pre|, digits) && s[..|pre|] == pre
    ensures VendorHint(s) == Some(DecimalValue(digits))
  {
    FirstMatchIsWording(pre, digits, s);
    HintAtFirstMatch(s, |pre|, digits);
  }

  /** The leftmost match is the wording's, its group being the digits. */
  lemma FirstMatchIsWording(pre: string, digits: string, s: string)
    requires |digits| > 0 && AllDigits(digits)
    requires forall k :: 0 <= k < |pre| ==> !LiteralAt(pre, k, "reset")
    requires CanonicalAt(s, |pre|, digits) && s[..|pre|] == pre
    ensures WordingFirst(s, |pre|, digits)
  {
    CanonicalMatch(digits, s, |pre|);
    NoMatchInPreamble(pre, digits, s);
  }

  /** `s` holds the canonical wording at `i`: "resets in ~", the digits, then "s". */
  predicate CanonicalAt(s: string, i: nat, digits: string) {
    |s| > i + 11 + |digits| && s[i..i + 11] == "resets in ~" &&
    s[i + 11..i + 11 + |digits|] == digits && s[i + 11 + |digits|] == 's'
  }

  /** The leftmost match in `s` is at `j`, its group being exactly `digits`. */
  predicate WordingFirst(s: string, j: nat, digits: string) {
    j + 11 + |digits| < |s| &&
    MatchAt(s, j, DecimalDigits) == Some((j + 11, j + 11 + |digits|)) &&
    s[j + 11..j + 11 + |digits|] == digits &&
    forall k :: 0 <= k < j ==> MatchAt(s, k, DecimalDigits).None?
  }

  /** A match whose group is `digits`, with none before it, gives their value. */
  lemma HintAtFirstMatch(s: string, j: nat, digits: string)
    requires AllDigits(digits) && WordingFirst(s, j, digits)
    ensures VendorHint(s) == Some(DecimalValue(digits))
  {
    SearchAtWording(s, j, digits);
    HintOfSearch(s, j + 11, j + 11 + |digits|);
  }

  lemma SearchAtWording(s: string, j: nat, digits: string)
    requires WordingFirst(s, j, digits)
    ensures SearchFrom(s, 0, DecimalDigits) == Some((j + 11, j + 11 + |digits|))
  {
    SearchFindsFirst(s, 0, j, DecimalDigits);
  }

  /** The hint is the value of the group the search finds. */
  lemma HintOfSearch(s: string, a: nat, b: nat)
    requires SearchFrom(s, 0, DecimalDigits) == Some((a, b))
    ensures a <= b <= |s| && VendorHint(s) == Some(DecimalValue(s[a..b]))
  {
  }

  lemma CanonicalPieces(pre: string, digits: string, rest: string, s: string)
    requires s == pre + "resets in ~" + digits + "s" + rest
    ensures CanonicalAt(s, |pre|, digits) && s[..|pre|] == pre
  {
    assert s == pre + ("resets in ~" + (digits + ("s" + rest)));
  }

  /** Before the wording no match can start: one inside the preamble would need "reset"
      there, and one straddling its end would need an `r` where the wording's `r` is not. */
  lemma NoMatchInPreamble(pre: string, digits: string, s: string)
    requires CanonicalAt(s, |pre|, digits) && s[..|pre|] == pre
    requires forall k :: 0 <= k < |pre| ==> !LiteralAt(pre, k, "reset")
    ensures forall k :: 0 <= k < |pre| ==> MatchAt(s, k, DecimalDigits).None?
  {
    var n := |pre|;
    assert s[n] == s[n..n + 11][0] == 'r';
    forall k | 0 <= k < n
      ensures !LiteralAt(s, k, "reset")
    {
      if k + 5 <= n {
        if LiteralAt(s, k, "reset") {
          forall m | 0 <= m < 5 ensures LowerChar(pre[k + m]) == "reset"[m] {
            assert pre[k + m] == s[..n][k + m] == s[k + m];
          }
          assert LiteralAt(pre, k, "reset");
        }
      } else {
        assert LowerChar(s[k + (n - k)]) == 'r' != "reset"[n - k];
      }
    }
  }

  /** A message holding "resets in ~", digits and "s" at `i` matches there, the group being
      exactly the digits. */
  lemma CanonicalMatch(digits: string, s: string, i: nat)
    requires |digits| > 0 && AllDigits(digits)
    requires CanonicalAt(s, i, digits)
    ensures MatchAt(s, i, DecimalDigits) == Some((i + 11, i + 11 + |digits|))
  {
    var n := |digits|;
    assert forall k :: 0 <= k < 11 ==> s[i + k] == "resets in ~"[k] by {
      forall k | 0 <= k < 11 ensures s[i + k] == "resets in ~"[k] {
        assert s[i..i + 11][k] == s[i + k];
      }
    }
    assert LiteralAt(s, i, "reset");
    assert LowerChar(s[i + 5]) == 's';
    assert LiteralAt(s, i + 6, " in ");
    assert s[i + 10] == '~';
    forall k | i + 11 <= k < i + 11 + n ensures IsDigit(s[k]) {
      assert s[k] == s[i + 11..i + 11 + n][k - i - 11] == digits[k - i - 11];
    }
    RunOverDigits(s, i + 11, i + 11 + n);
  }

  lemma RunOverDigits(s: string, i: nat, e: nat)
    requires i <= e < |s|
    requires forall k :: i <= k < e ==> IsDigit(s[k])
    requires !IsDigit(s[e])
    ensures RunEnd(s, i, DecimalDigits) == e
    decreases e - i
  {
    if i < e {
      RunOverDigits(s, i + 1, e);
    }
  }

  /** As written, a message without a backslash never yields a hint, so the canonical
      wording falls through to exponential backoff. */
  lemma AsWrittenIgnoresPlainMessages(message: string, i: nat)
    requires i <= |message|
    requires forall k :: 0 <= k < |message| ==> message[k] != '\\'
    ensures SearchFrom(message, i, BackslashThenDs).None?
  {
    assert forall j :: i <= j <= |message| ==> MatchAt(message, j, BackslashThenDs).None?;
    SearchFromMeaning(message, i, BackslashThenDs);
  }

  /** The discrepancy on the canonical wording: the intended parser reads `N` seconds,
      the parser as written reads nothing. */
  lemma AsWrittenMissesCanonicalHint(digits: string)
    requires |digits| > 0 && AllDigits(digits)
    ensures VendorHint("resets in ~" + digits + "s") == Some(DecimalValue(digits))
    ensures ReadHintAsWritten("resets in ~" + digits + "s") == NoHint
  {
    var s := "resets in ~" + digits + "s";
    assert "" + "resets in ~" + digits + "s" + "" == s;
    VendorHintReadsSeconds("", digits, "");
    CanonicalHasNoBackslash(digits);
    AsWrittenIgnoresPlainMessages(s, 0);
  }

  lemma CanonicalHasNoBackslash(digits: string)
    requires AllDigits(digits)
    ensures forall k :: 0 <= k < |"resets in ~" + digits + "s"| ==> ("resets in ~" + digits + "s")[k] != '\\'
  {
    var s := "resets in ~" + digits + "s";
    forall k | 0 <= k < |s|
      ensures s[k] != '\\'
    {
      if k >= 11 && k < 11 + |digits| {
        assert s[k] == digits[k - 11];
      }
    }
  }

  /** And on the text the pattern as written does match, `float()` raises. */
  lemma AsWrittenRaisesOnBackslashGroup()
    ensures ReadHintAsWritten("resets in ~\\ds") == HintRaises("\\d")
  {
    var s := "resets in ~\\ds";
    assert LiteralAt(s, 0, "reset");
    assert LiteralAt(s, 6, " in ");
    assert RunEnd(s, 12, BackslashThenDs) == 13;
    assert MatchAt(s, 0, BackslashThenDs) == Some((11, 13));
    assert s[11..13] == "\\d";
  }
}
