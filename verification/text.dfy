/**
 * String helpers shared by the backend and the client: ASCII lower-casing
 * (`toLowerCase`/`lower`), Python's `str.strip()` restricted to ASCII
 * whitespace, substring search (`includes`), truthiness of an optional
 * string, and the decimal rendering of a status code.
 */
module Text {
  import opened Wrappers

  // ---------------------------------------------------------------------
  // Case

  predicate IsUpper(c: char) {
    'A' <= c <= 'Z'
  }

  /** ASCII lower-casing of one character; every other character is kept. */
  function LowerChar(c: char): (r: char)
    ensures IsUpper(c) ==> r as int == c as int + 32
    ensures !IsUpper(c) ==> r == c
    ensures !IsUpper(r)
  {
    if IsUpper(c) then (c as int + 32) as char else c
  }

  function Lower(s: string): (r: string)
    ensures |r| == |s|
    ensures forall k :: 0 <= k < |s| ==> r[k] == LowerChar(s[k])
  {
    seq(|s|, k requires 0 <= k < |s| => LowerChar(s[k]))
  }

  /** The two strings differ at most in the case of ASCII letters. */
  ghost predicate SameUpToCase(a: string, b: string) {
    |a| == |b| &&
    forall k :: 0 <= k < |a| ==> a[k] == b[k] || LowerChar(a[k]) == b[k] || a[k] == LowerChar(b[k])
  }

  /** Lower-casing identifies exactly the strings that agree up to ASCII case. */
  lemma {:induction false} LowerIdentifiesCase(a: string, b: string)
    ensures Lower(a) == Lower(b) <==> SameUpToCase(a, b)
  {
    if Lower(a) == Lower(b) {
      forall k | 0 <= k < |a|
        ensures a[k] == b[k] || LowerChar(a[k]) == b[k] || a[k] == LowerChar(b[k])
      {
        assert Lower(a)[k] == Lower(b)[k];
      }
    }
    if SameUpToCase(a, b) {
      forall k | 0 <= k < |a|
        ensures Lower(a)[k] == Lower(b)[k]
      {
        var x, y := a[k], b[k];
        assert x == y || LowerChar(x) == y || x == LowerChar(y);
      }
    }
  }

  /** A lower-cased string is its own lower-case form. */
  lemma LowerIdempotent(s: string)
    ensures Lower(Lower(s)) == Lower(s)
  {
  }

  // ---------------------------------------------------------------------
  // Whitespace

  /** The ASCII characters Python's `str.isspace` accepts: space, \t \n \v \f \r, and \x1c-\x1f. */
  predicate IsSpace(c: char) {
    c == ' ' || 9 <= c as int <= 13 || 28 <= c as int <= 31
  }

  predicate AllSpace(s: string) {
    forall k :: 0 <= k < |s| ==> IsSpace(s[k])
  }

  /** Index of the first non-whitespace character at or after `i` (or `|s|`). */
  function SkipSpaceFrom(s: string, i: nat): (k: nat)
    requires i <= |s|
    ensures i <= k <= |s|
    ensures forall m :: i <= m < k ==> IsSpace(s[m])
    ensures k < |s| ==> !IsSpace(s[k])
    decreases |s| - i
  {
    if i < |s| && IsSpace(s[i]) then SkipSpaceFrom(s, i + 1) else i
  }

  /** End of the slice `s[lo..j]` once its trailing whitespace is dropped. */
  function SkipSpaceBack(s: string, lo: nat, j: nat): (k: nat)
    requires lo <= j <= |s|
    ensures lo <= k <= j
    ensures forall m :: k <= m < j ==> IsSpace(s[m])
    ensures k > lo ==> !IsSpace(s[k - 1])
    decreases j
  {
    if j > lo && IsSpace(s[j - 1]) then SkipSpaceBack(s, lo, j - 1) else j
  }

  /** Start of the stripped slice. */
  function StripStart(s: string): nat {
    SkipSpaceFrom(s, 0)
  }

  /** End of the stripped slice. */
  function StripEnd(s: string): nat {
    SkipSpaceBack(s, StripStart(s), |s|)
  }

  /**
   * Python's `s.strip()` over ASCII whitespace: the slice of `s` left after
   * removing whitespace from both ends.
   */
  function Strip(s: string): (r: string)
    ensures StripStart(s) <= StripEnd(s) <= |s| && r == s[StripStart(s)..StripEnd(s)]
    ensures forall m :: 0 <= m < StripStart(s) ==> IsSpace(s[m])
    ensures forall m :: StripEnd(s) <= m < |s| ==> IsSpace(s[m])
    ensures r != [] ==> !IsSpace(r[0]) && !IsSpace(r[|r| - 1])
    ensures r == [] <==> AllSpace(s)
  {
    s[StripStart(s)..StripEnd(s)]
  }

  /** Stripping twice is the same as stripping once. */
  lemma StripIdempotent(s: string)
    ensures Strip(Strip(s)) == Strip(s)
  {
    var r := Strip(s);
    if r != [] {
      assert StripStart(r) == 0;
      assert StripEnd(r) == |r|;
    }
  }

  // ---------------------------------------------------------------------
  // Search and truthiness

  /** `s.includes(sub)`: `sub` occurs as a contiguous slice of `s`. */
  predicate Contains(s: string, sub: string)
    decreases |s|
  {
    (|sub| <= |s| && s[..|sub|] == sub) || (s != [] && Contains(s[1..], sub))
  }

  /** JavaScript / Python truthiness of an optional string: present and non-empty. */
  predicate Truthy(s: Option<string>) {
    s.Some? && s.value != ""
  }

  // ---------------------------------------------------------------------
  // Decimal numbers

  predicate IsDigit(c: char) {
    '0' <= c <= '9'
  }

  function DigitChar(d: nat): (c: char)
    requires d < 10
    ensures IsDigit(c) && c as int - '0' as int == d
  {
    ('0' as int + d) as char
  }

  /** `${n}` for a non-negative integer: its shortest decimal numeral. */
  function NatToString(n: nat): (r: string)
    ensures |r| >= 1
    ensures forall k :: 0 <= k < |r| ==> IsDigit(r[k])
    ensures r[0] == '0' ==> n == 0
    decreases n
  {
    if n < 10 then [DigitChar(n)] else NatToString(n / 10) + [DigitChar(n % 10)]
  }

  /** The value of a numeral, read most significant digit first. */
  function DecimalValue(s: string): nat
    requires forall k :: 0 <= k < |s| ==> IsDigit(s[k])
  {
    if s == [] then 0
    else
      assert IsDigit(s[|s| - 1]);
      DecimalValue(s[..|s| - 1]) * 10 + (s[|s| - 1] as int - '0' as int)
  }

  /** Reading back the rendered numeral gives the number. */
  lemma {:induction false} DecimalRoundTrip(n: nat)
    ensures DecimalValue(NatToString(n)) == n
    decreases n
  {
    if n >= 10 {
      var s := NatToString(n);
      assert s[..|s| - 1] == NatToString(n / 10);
      DecimalRoundTrip(n / 10);
    }
  }

  /** Distinct numbers render as distinct numerals. */
  lemma NatToStringInjective(m: nat, n: nat)
    requires NatToString(m) == NatToString(n)
    ensures m == n
  {
    DecimalRoundTrip(m);
    DecimalRoundTrip(n);
  }
}
