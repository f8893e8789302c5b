/**
  The small part of the Java platform that the scraper's own code leans on:
  the exceptions it can raise, String.indexOf / substring / startsWith with
  their exact index conventions, and Double.toString on the whole numbers the
  scraper stores in a double field.
 */
module JavaLang {

  datatype Option<+T> = None | Some(value: T)

  /** The Java exceptions the modelled code can raise or let through. */
  datatype JavaException =
    | NullPointer
    | StringIndexOutOfBounds(begin: int, end: int, length: nat)
    | NoSuchElement
    | NumberFormat(text: string)
    | IO(url: string)
    | AssertionFailed(message: string)

  /** The value of a Java call that either returns or throws. */
  datatype Result<+T> = Ok(value: T) | Throws(error: JavaException)

  /** The end of a Java call returning void: normally, or by an exception. */
  datatype Outcome = Normal | Thrown(error: JavaException)

  // ---------------------------------------------------------------------
  // java.lang.String
  // ---------------------------------------------------------------------

  /** `pat` occurs in `s` starting at index `k`. */
  predicate MatchesAt(s: string, pat: string, k: int) {
    0 <= k && k + |pat| <= |s| && s[k..k + |pat|] == pat
  }

  /** `s.startsWith(p)`. */
  predicate StartsWith(s: string, p: string) {
    MatchesAt(s, p, 0)
  }

  /** `s` starts with `p` exactly when `p` fits and agrees with `s` character
      by character. */
  lemma StartsWithChars(s: string, p: string)
    ensures StartsWith(s, p) <==> |p| <= |s| && forall k :: 0 <= k < |p| ==> s[k] == p[k]
  {
    if |p| <= |s| && forall k :: 0 <= k < |p| ==> s[k] == p[k] {
      assert s[0..|p|] == p;
    }
  }

  /** Where `s.indexOf(pat, from)` starts looking: a negative `from` counts as 0,
      one beyond the end as the end. */
  function SearchStart(s: string, from: int): (lo: nat)
    ensures lo <= |s|
    ensures 0 <= from <= |s| ==> lo == from
    ensures from < 0 ==> lo == 0
    ensures from > |s| ==> lo == |s|
  {
    if from < 0 then 0 else if from > |s| then |s| else from
  }

  /** The characters of `pat` from index `j` on equal those of `s` from
      `k + j` on, compared one at a time as `indexOf` does. */
  predicate CharsMatch(s: string, pat: string, k: nat, j: nat)
    requires k + |pat| <= |s| && j <= |pat|
    decreases |pat| - j
  {
    j == |pat| || (s[k + j] == pat[j] && CharsMatch(s, pat, k, j + 1))
  }

  /** Comparing character by character is comparing the slices. */
  lemma {:induction false} CharsMatchSlices(s: string, pat: string, k: nat, j: nat)
    requires k + |pat| <= |s| && j <= |pat|
    ensures CharsMatch(s, pat, k, j) <==> s[k + j..k + |pat|] == pat[j..]
    decreases |pat| - j
  {
    if j < |pat| {
      CharsMatchSlices(s, pat, k, j + 1);
      assert s[k + j..k + |pat|] == [s[k + j]] + s[k + j + 1..k + |pat|];
      assert pat[j..] == [pat[j]] + pat[j + 1..];
    }
  }

  /** Search for the first match of `pat` at an index `lo` or later. */
  function IndexFrom(s: string, pat: string, lo: nat): (r: int)
    requires lo <= |s|
    ensures r == -1 || (lo <= r && r + |pat| <= |s|)
    decreases |s| - lo
  {
    if lo + |pat| > |s| then -1
    else if CharsMatch(s, pat, lo, 0) then lo
    else IndexFrom(s, pat, lo + 1)
  }

  /** The search finds the least matching index at or after `lo`, and -1 only
      when there is none. */
  lemma {:induction false} IndexFromSpec(s: string, pat: string, lo: nat)
    requires lo <= |s|
    ensures var r := IndexFrom(s, pat, lo);
            && (r == -1 || (lo <= r && MatchesAt(s, pat, r)))
            && (r != -1 ==> forall k :: lo <= k < r ==> !MatchesAt(s, pat, k))
            && (r == -1 ==> forall k :: lo <= k ==> !MatchesAt(s, pat, k))
    decreases |s| - lo
  {
    if lo + |pat| <= |s| {
      CharsMatchSlices(s, pat, lo, 0);
      if !CharsMatch(s, pat, lo, 0) {
        IndexFromSpec(s, pat, lo + 1);
      }
    }
  }

  /** `s.indexOf(pat, from)`: the least index at or after the search start where
      `pat` occurs, or -1 when there is none (see IndexOfSpec). */
  function IndexOf(s: string, pat: string, from: int): (r: int)
    ensures r == -1 || (SearchStart(s, from) <= r && r + |pat| <= |s|)
  {
    IndexFrom(s, pat, SearchStart(s, from))
  }

  /** What `indexOf` promises: a match at the result, none before it at or
      after the search start, and -1 exactly when there is no match there. */
  lemma IndexOfSpec(s: string, pat: string, from: int)
    ensures var r := IndexOf(s, pat, from);
            && (r == -1 || (SearchStart(s, from) <= r && MatchesAt(s, pat, r)))
            && (r != -1 ==> forall k :: SearchStart(s, from) <= k < r ==> !MatchesAt(s, pat, k))
            && (r == -1 <==> forall k :: SearchStart(s, from) <= k ==> !MatchesAt(s, pat, k))
  {
    IndexFromSpec(s, pat, SearchStart(s, from));
  }

  /** `s.substring(begin, end)`: throws unless `0 <= begin <= end <= s.length()`. */
  function Substring(s: string, begin: int, end: int): (r: Result<string>)
    ensures r.Ok? <==> 0 <= begin <= end <= |s|
    ensures r.Throws? ==> r.error == StringIndexOutOfBounds(begin, end, |s|)
    ensures r.Ok? ==> |r.value| == end - begin
    ensures r.Ok? ==> forall k :: 0 <= k < |r.value| ==> r.value[k] == s[begin + k]
  {
    if begin < 0 || end > |s| || end - begin < 0 then Throws(StringIndexOutOfBounds(begin, end, |s|))
    else Ok(s[begin..end])
  }

  // ---------------------------------------------------------------------
  // Decimal digits, and Double.toString of a whole number
  // ---------------------------------------------------------------------

  predicate IsDigit(c: char) {
    '0' <= c <= '9'
  }

  function DigitValue(c: char): nat
    requires IsDigit(c)
  {
    c as int - '0' as int
  }

  /** The number a string of decimal digits denotes. */
  function DecimalValue(s: string): nat
    requires forall k :: 0 <= k < |s| ==> IsDigit(s[k])
  {
    if s == [] then 0 else DecimalValue(s[..|s| - 1]) * 10 + DigitValue(s[|s| - 1])
  }

  /** The decimal digits of `n`, most significant first, without leading zeros. */
  function Decimal(n: nat): (s: string)
    ensures |s| > 0
    ensures forall k :: 0 <= k < |s| ==> IsDigit(s[k])
    ensures s[0] == '0' ==> n == 0 && |s| == 1
    decreases n
  {
    if n < 10 then [('0' as int + n) as char]
    else Decimal(n / 10) + [('0' as int + n % 10) as char]
  }

  /** Reading back the digits of `n` gives `n`. */
  lemma {:induction false} DecimalRoundTrip(n: nat)
    ensures DecimalValue(Decimal(n)) == n
    decreases n
  {
    var s := Decimal(n);
    if n >= 10 {
      DecimalRoundTrip(n / 10);
      assert s[..|s| - 1] == Decimal(n / 10);
    }
  }

  /** Java prints a double in plain notation, with a fraction part of at least
      one digit, when its magnitude is at least 10^-3 and below 10^7; a whole
      number there prints as its digits followed by ".0". */
  const PlainNotationBound: nat := 10_000_000

  /** `Double.toString(n)` for a whole number `n` below 10^7. */
  function WholeDoubleToString(n: nat): (s: string)
    requires n < PlainNotationBound
    ensures |s| >= 3 && s[|s| - 2..] == ".0"
    ensures var digits := s[..|s| - 2];
            (forall k :: 0 <= k < |digits| ==> IsDigit(digits[k]))
            && DecimalValue(digits) == n
            && (digits[0] == '0' ==> |digits| == 1)
  {
    var digits := Decimal(n);
    DecimalRoundTrip(n);
    var s := digits + ".0";
    assert s[..|s| - 2] == digits;
    s
  }
}
