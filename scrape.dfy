/**
 * The page scraper: the online driver version is the first text on the
 * vendor's driver page matching `Windows\/\d{3}\.\d{2}`, with the literal
 * `Windows/` removed from the match.
 */
module Scrape {
  import opened Wrappers
  import opened Faults

  /** The literal that starts every match and is stripped from it. */
  const Prefix: string := "Windows/"

  /** Length of a whole match: the prefix, three digits, a dot and two digits. */
  const MatchLength: nat := 14

  predicate IsDigit(c: char) {
    '0' <= c <= '9'
  }

  /** A published driver version: three digits, a dot, two digits. */
  predicate IsVersion(v: string) {
    && |v| == 6
    && IsDigit(v[0]) && IsDigit(v[1]) && IsDigit(v[2])
    && v[3] == '.'
    && IsDigit(v[4]) && IsDigit(v[5])
  }

  /** The pattern matches the page text starting at index i. */
  predicate MatchAt(page: string, i: nat) {
    && i + MatchLength <= |page|
    && page[i..i + |Prefix|] == Prefix
    && IsVersion(page[i + |Prefix|..i + MatchLength])
  }

  /**
   * The leftmost match starting at or after `from`. The pattern has a fixed
   * length, so the first of the regular expression's matches is the one at
   * the smallest index where the pattern fits.
   */
  function FindFirst(page: string, from: nat): (r: Option<nat>)
    ensures r.Some? ==> from <= r.value && MatchAt(page, r.value)
    ensures r.Some? ==> forall j: nat :: from <= j < r.value ==> !MatchAt(page, j)
    ensures r.None? ==> forall j: nat :: from <= j ==> !MatchAt(page, j)
    decreases |page| - from
  {
    if from + MatchLength > |page| then None
    else if MatchAt(page, from) then Some(from)
    else FindFirst(page, from + 1)
  }

  /** `Regex.Replace(s, pat, "")` for a pattern made of literal characters:
      every occurrence, scanned left to right without overlap, is removed. */
  function RemoveAll(s: string, pat: string): (r: string)
    ensures |r| <= |s|
    decreases |s|
  {
    if pat == [] || |s| < |pat| then s
    else if s[..|pat|] == pat then RemoveAll(s[|pat|..], pat)
    else [s[0]] + RemoveAll(s[1..], pat)
  }

  /** Text that does not contain the pattern's first character is left alone. */
  lemma {:induction false} RemoveAllAbsent(s: string, pat: string)
    requires pat != []
    requires forall k :: 0 <= k < |s| ==> s[k] != pat[0]
    ensures RemoveAll(s, pat) == s
    decreases |s|
  {
    if |s| >= |pat| {
      assert s[..|pat|][0] == s[0] != pat[0];
      RemoveAllAbsent(s[1..], pat);
      assert [s[0]] + s[1..] == s;
    }
  }

  /** Stripping the prefix from a whole match leaves exactly the version. */
  lemma StripPrefix(v: string)
    requires IsVersion(v)
    ensures RemoveAll(Prefix + v, Prefix) == v
  {
    var m := Prefix + v;
    assert m[..|Prefix|] == Prefix;
    assert m[|Prefix|..] == v;
    RemoveAllAbsent(v, Prefix);
  }

  /**
   * The online driver version scraped from the page text (source lines
   * 164-167). With no match, the source indexes an empty match collection;
   * here that is the explicit NoVersionOnPage error.
   */
  function ExtractOnlineVersion(page: string): (r: Result<string, Fault>)
    ensures r.Err? <==> forall i: nat :: !MatchAt(page, i)
    ensures r.Err? ==> r.error == NoVersionOnPage
    ensures r.Ok? ==> IsVersion(r.value)
    ensures r.Ok? ==>
      exists i: nat :: MatchAt(page, i) && page[i + |Prefix|..i + MatchLength] == r.value
                       && forall j: nat :: j < i ==> !MatchAt(page, j)
  {
    match FindFirst(page, 0)
    case None => Err(NoVersionOnPage)
    case Some(i) =>
      var m := page[i..i + MatchLength];
      assert m == Prefix + page[i + |Prefix|..i + MatchLength];
      StripPrefix(page[i + |Prefix|..i + MatchLength]);
      Ok(RemoveAll(m, Prefix))
  }
}
