/** The parser combinators of the nom crate that the almanac and race
    parsers are built from. Each takes the text and gives back what it
    leaves unread with the value it read, or fails (`None`). */
module Nom {
  import opened Common

  predicate IsBlank(c: char) { c == ' ' || c == '\t' }

  /** What `multispace0` and `multispace1` skip: space, tab, carriage
      return and newline, and no other whitespace. */
  predicate IsMultispace(c: char) { c == ' ' || c == '\t' || c == '\r' || c == '\n' }

  /** The characters the combinators take runs of: `digit1`,
      `take_till(is_ascii_digit)`, `space1`, `multispace0`/`multispace1` and
      `take_while1(|c| c != ':')`. */
  datatype Class = Digits | NonDigits | Blanks | Whitespace | NotColon

  predicate In(c: char, k: Class)
  {
    match k
    case Digits => IsDigit(c)
    case NonDigits => !IsDigit(c)
    case Blanks => IsBlank(c)
    case Whitespace => IsMultispace(c)
    case NotColon => c != ':'
  }

  /** The length of the longest prefix of characters of class `k`. */
  function Leading(s: string, k: Class): (n: nat)
    ensures n <= |s|
  {
    if s == [] || !In(s[0], k) then 0 else 1 + Leading(s[1..], k)
  }

  /** The prefix `Leading` measures is of class `k` and cannot be
      extended. */
  lemma {:induction false} LeadingSpec(s: string, k: Class)
    ensures forall i | 0 <= i < Leading(s, k) :: In(s[i], k)
    ensures Leading(s, k) < |s| ==> !In(s[Leading(s, k)], k)
  {
    if s != [] && In(s[0], k) {
      LeadingSpec(s[1..], k);
      assert forall i | 1 <= i < Leading(s, k) :: s[i] == s[1..][i - 1];
    }
  }

  /** `digit1` mapped to a number. */
  function Digit1(s: string): (r: Option<(string, nat)>)
    ensures r.Some? <==> s != [] && IsDigit(s[0])
  {
    var n := Leading(s, Digits);
    LeadingSpec(s, Digits);
    if n == 0 then None
    else
      assert AllDigits(s[..n]);
      Some((s[n..], DigitsValue(s[..n])))
  }

  /** `digit1` itself: the run of digits, as text, and what follows it. */
  function Digit1Text(s: string): (r: Option<(string, string)>)
    ensures r.Some? <==> s != [] && IsDigit(s[0])
    ensures r.Some? ==> |r.value.1| >= 1 && AllDigits(r.value.1) && s == r.value.1 + r.value.0
    ensures r.Some? ==> Digit1(s) == Some((r.value.0, DigitsValue(r.value.1)))
  {
    var n := Leading(s, Digits);
    LeadingSpec(s, Digits);
    if n == 0 then None
    else
      assert AllDigits(s[..n]);
      assert s == s[..n] + s[n..];
      Some((s[n..], s[..n]))
  }

  /** `space1`: spaces and tabs. */
  function Space1(s: string): (r: Option<string>)
    ensures r.Some? ==> |r.value| < |s|
  {
    var n := Leading(s, Blanks);
    if n == 0 then None else Some(s[n..])
  }

  /** `multispace0`: skips the leading spaces, tabs, carriage returns and
      newlines, all of them, and nothing else. */
  function Multispace0(s: string): (r: string)
    ensures |r| <= |s| && s[|s| - |r|..] == r
    ensures forall i | 0 <= i < |s| - |r| :: IsMultispace(s[i])
    ensures r == [] || !IsMultispace(r[0])
  {
    LeadingSpec(s, Whitespace);
    s[Leading(s, Whitespace)..]
  }

  /** `multispace1`: as `multispace0`, but fails unless it skips at least
      one character. */
  function Multispace1(s: string): (r: Option<string>)
    ensures r.None? <==> s == [] || !IsMultispace(s[0])
    ensures r.Some? ==> r.value == Multispace0(s)
  {
    var n := Leading(s, Whitespace);
    if n == 0 then None else Some(s[n..])
  }

  function Tag(s: string, t: string): (r: Option<string>)
  {
    if t <= s then Some(s[|t|..]) else None
  }

  // ---------------------------------------------------------------------
  // What the combinators read back

  /** A run of characters satisfying `p`, ended by one that does not (or
      by the end), is exactly what `Leading` measures. */
  lemma LeadingRun(w: string, t: string, k: Class)
    requires forall i | 0 <= i < |w| :: In(w[i], k)
    requires t == [] || !In(t[0], k)
    ensures Leading(w + t, k) == |w|
  {
    LeadingSpec(w + t, k);
    assert forall i | 0 <= i < |w| :: (w + t)[i] == w[i];
    assert t != [] ==> (w + t)[|w|] == t[0];
  }

  /** `digit1` reads back a printed number. */
  lemma Digit1Digits(d: string, t: string)
    requires |d| >= 1 && AllDigits(d)
    requires t == [] || !IsDigit(t[0])
    ensures Digit1(d + t) == Some((t, DigitsValue(d)))
  {
    LeadingRun(d, t, Digits);
    assert (d + t)[..|d|] == d && (d + t)[|d|..] == t;
  }

  lemma Digit1Decimal(n: nat, t: string)
    requires t == [] || !IsDigit(t[0])
    ensures Digit1(Decimal(n) + t) == Some((t, n))
  {
    Digit1Digits(Decimal(n), t);
    DecimalValue(n);
  }
}
