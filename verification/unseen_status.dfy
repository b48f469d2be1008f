/**
 * Extraction of the unread count from an IMAP STATUS reply: the `UNSEEN` status
 * data item of section 6.3.10 and section 7.2.4 of RFC 3501, found with the
 * search pattern `UNSEEN (\d+)` on the decoded reply text.
 *
 * A regular-expression search returns the leftmost position where the pattern
 * matches; `\d+` is greedy. So the count is the value of the maximal digit run
 * that follows the first "UNSEEN " that is immediately followed by a digit.
 */
module UnseenStatus {
  import opened Outcomes
  import opened Decimal

  const Tag: string := "UNSEEN "

  /** The pattern `UNSEEN (\d+)` matches `s` starting at index `i`. */
  predicate MatchesAt(s: string, i: int) {
    0 <= i && i + |Tag| < |s| && s[i..i + |Tag|] == Tag && IsDigit(s[i + |Tag|])
  }

  /** `i` is where a regular-expression search for the pattern stops: the leftmost match. */
  predicate IsFirstMatch(s: string, i: int) {
    MatchesAt(s, i) && forall j :: 0 <= j < i ==> !MatchesAt(s, j)
  }

  /** The text captured by the group `(\d+)` of a match at `i`. */
  function Captured(s: string, i: int): (digits: string)
    requires MatchesAt(s, i)
    ensures |digits| >= 1 && AllDigits(digits)
  {
    var after := s[i + |Tag|..];
    after[..LeadingDigits(after)]
  }

  /** The leftmost match at or after index `from`. */
  function FindMatch(s: string, from: nat): (r: Option<nat>)
    ensures r.Some? ==> from <= r.value && MatchesAt(s, r.value)
    ensures r.Some? ==> forall j :: from <= j < r.value ==> !MatchesAt(s, j)
    ensures r.None? ==> forall j :: from <= j ==> !MatchesAt(s, j)
    decreases |s| - from
  {
    if from >= |s| then None
    else if MatchesAt(s, from) then Some(from)
    else FindMatch(s, from + 1)
  }

  /**
   * `int(re.search('UNSEEN (\d+)', s).group(1))`, with `None` where the search
   * finds nothing (there the source calls `.group` on `None` and raises).
   */
  function ParseUnseen(s: string): (r: Option<nat>)
    ensures r.None? <==> forall j :: !MatchesAt(s, j)
    ensures r.Some? ==> exists i :: IsFirstMatch(s, i) && r.value == Value(Captured(s, i))
  {
    match FindMatch(s, 0)
    case None => None
    case Some(i) =>
      assert IsFirstMatch(s, i);
      Some(Value(Captured(s, i)))
  }

  /** A string has at most one leftmost match. */
  lemma FirstMatchUnique(s: string, i: int, k: int)
    requires IsFirstMatch(s, i) && IsFirstMatch(s, k)
    ensures i == k
  {
  }

  /** The parse reads exactly the first match's captured digits. */
  lemma ParseUnseenAt(s: string, i: int)
    requires IsFirstMatch(s, i)
    ensures ParseUnseen(s) == Some(Value(Captured(s, i)))
  {
    var r := ParseUnseen(s);
    assert r.Some?;
    var k :| IsFirstMatch(s, k) && r.value == Value(Captured(s, k));
    FirstMatchUnique(s, i, k);
  }

  /**
   * No match can start in `prefix` and run into an appended "UNSEEN ": the tag
   * has no proper suffix that is also a prefix of it (it ends in a space, which
   * is its only space, and it begins with 'U').
   */
  lemma {:induction false} NoMatchBeforeTag(prefix: string, rest: string, j: int)
    requires forall m :: !MatchesAt(prefix, m)
    requires 0 <= j < |prefix|
    ensures !MatchesAt(prefix + Tag + rest, j)
  {
    var s := prefix + Tag + rest;
    if j + |Tag| < |prefix| {
      assert s[j..j + |Tag|] == prefix[j..j + |Tag|];
      assert s[j + |Tag|] == prefix[j + |Tag|];
      assert !MatchesAt(prefix, j);
    } else if j + |Tag| == |prefix| {
      assert s[j + |Tag|] == 'U';
    } else {
      // The tag's last character, a space, would fall on one of the first six
      // characters of the appended tag, none of which is a space.
      var p := j + |Tag| - 1;
      assert |prefix| <= p < |prefix| + |Tag| - 1;
      assert s[p] == Tag[p - |prefix|] != ' ';
      assert s[j..j + |Tag|][|Tag| - 1] != Tag[|Tag| - 1];
    }
  }

  /**
   * Round trip: a reply that holds "UNSEEN " and the decimal spelling of `n`,
   * with no match before it and no digit right after it, parses to `n`.
   */
  lemma {:induction false} ParseUnseenRoundTrip(prefix: string, n: nat, suffix: string)
    requires forall m :: !MatchesAt(prefix, m)
    requires suffix == [] || !IsDigit(suffix[0])
    ensures ParseUnseen(prefix + Tag + Show(n) + suffix) == Some(n)
  {
    var s := prefix + Tag + Show(n) + suffix;
    var i := |prefix|;
    assert s == prefix + Tag + (Show(n) + suffix);
    assert s[i..i + |Tag|] == Tag;
    assert s[i + |Tag|] == Show(n)[0];
    forall j | 0 <= j < i
      ensures !MatchesAt(s, j)
    {
      NoMatchBeforeTag(prefix, Show(n) + suffix, j);
    }
    assert IsFirstMatch(s, i);
    var after := s[i + |Tag|..];
    assert after == Show(n) + suffix;
    LeadingDigitsStop(Show(n), suffix);
    assert Captured(s, i) == Show(n);
    ValueOfShow(n);
    ParseUnseenAt(s, i);
  }
}
