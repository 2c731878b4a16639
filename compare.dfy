/**
 * Comparison of the local and online driver versions. The source parses
 * both strings as floating-point numbers under the current culture and, if
 * that throws a FormatException, retries after turning every `.` into `,`.
 * Here a version is a fixed-point number counted in hundredths, and the
 * culture is reduced to its decimal separator.
 */
module VersionCompare {
  import opened Wrappers
  import opened Faults
  import Scrape

  predicate AllDigits(s: string) {
    forall k :: 0 <= k < |s| ==> Scrape.IsDigit(s[k])
  }

  /** The decimal value of a digit string. */
  function DigitsValue(s: string): nat
    requires AllDigits(s)
  {
    if s == [] then 0
    else DigitsValue(s[..|s| - 1]) * 10 + (s[|s| - 1] as int - '0' as int)
  }

  /**
   * float.Parse in hundredths under a culture whose decimal separator is
   * `sep`: whole digits, optionally followed by the separator and two
   * digits. Anything else is a FormatException (None).
   */
  predicate HasFraction(s: string, sep: char) {
    |s| >= 4 && s[|s| - 3] == sep && AllDigits(s[..|s| - 3]) && AllDigits(s[|s| - 2..])
  }

  function ParseFixed(s: string, sep: char): (r: Option<nat>)
    ensures r.Some? ==> s != [] && Scrape.IsDigit(s[0])
    ensures r.Some? ==> forall k :: 0 <= k < |s| ==> Scrape.IsDigit(s[k]) || s[k] == sep
  {
    if HasFraction(s, sep) then
      assert forall k :: 0 <= k < |s| - 3 ==> s[..|s| - 3][k] == s[k];
      assert forall k :: |s| - 2 <= k < |s| ==> s[|s| - 2..][k - (|s| - 2)] == s[k];
      Some(DigitsValue(s[..|s| - 3]) * 100 + DigitsValue(s[|s| - 2..]))
    else if s != [] && AllDigits(s) then
      Some(DigitsValue(s) * 100)
    else
      None
  }

  function SwapChar(c: char): char {
    if c == '.' then ',' else c
  }

  /** `s.Replace('.', ',')`: every dot becomes a comma, every other character stays. */
  function SwapSeparator(s: string): (r: string)
    ensures |r| == |s|
    ensures forall k :: 0 <= k < |s| ==> r[k] == SwapChar(s[k])
  {
    seq(|s|, k requires 0 <= k < |s| => SwapChar(s[k]))
  }

  /** Which way the comparison went, and whether it needed the `,` retry. */
  datatype Verdict = Verdict(older: bool, fallback: bool)

  /**
   * `float.Parse(local) < float.Parse(online)`, with the source's retry on a
   * FormatException (lines 172-240). A null local version throws an
   * ArgumentNullException that nothing catches; a retry that still fails
   * lets its FormatException escape.
   */
  function CompareVersions(local: Option<string>, online: string, sep: char): (r: Result<Verdict, Fault>)
    ensures local.None? <==> r == Err(NoLocalVersion)
    ensures r.Err? && local.Some? ==> r.error == Unparsable
    ensures local.Some? && ParseFixed(local.value, sep).Some? && ParseFixed(online, sep).Some? ==>
      r.Ok? && !r.value.fallback
    ensures (local.Some? && ParseFixed(SwapSeparator(local.value), sep).Some? &&
             ParseFixed(SwapSeparator(online), sep).Some?) ==> r.Ok?
    ensures r.Ok? && !r.value.fallback ==>
      && ParseFixed(local.value, sep).Some? && ParseFixed(online, sep).Some?
      && (r.value.older <==> ParseFixed(local.value, sep).value < ParseFixed(online, sep).value)
    ensures r.Ok? && r.value.fallback ==>
      && (ParseFixed(local.value, sep).None? || ParseFixed(online, sep).None?)
      && ParseFixed(SwapSeparator(local.value), sep).Some?
      && ParseFixed(SwapSeparator(online), sep).Some?
      && (r.value.older <==>
            ParseFixed(SwapSeparator(local.value), sep).value < ParseFixed(SwapSeparator(online), sep).value)
  {
    match local
    case None => Err(NoLocalVersion)
    case Some(l) =>
      var pl, po := ParseFixed(l, sep), ParseFixed(online, sep);
      if pl.Some? && po.Some? then Ok(Verdict(pl.value < po.value, false))
      else
        var ql, qo := ParseFixed(SwapSeparator(l), sep), ParseFixed(SwapSeparator(online), sep);
        if ql.Some? && qo.Some? then Ok(Verdict(ql.value < qo.value, true))
        else Err(Unparsable)
  }

  /** A digit string has no dot, so the swap leaves it alone. */
  lemma SwapKeepsDigits(s: string)
    requires AllDigits(s)
    ensures SwapSeparator(s) == s
  {
  }

  /** On a slice, the swapped string has digits exactly where the original
      does, and where the original is all digits the swap changed nothing. */
  lemma SwapSliceDigits(s: string, i: nat, j: nat)
    requires i <= j <= |s|
    ensures AllDigits(SwapSeparator(s)[i..j]) <==> AllDigits(s[i..j])
    ensures AllDigits(s[i..j]) ==> SwapSeparator(s)[i..j] == s[i..j]
  {
    var t := SwapSeparator(s);
    assert forall k | 0 <= k < j - i :: t[i..j][k] == SwapChar(s[i..j][k]);
  }

  /** Digits survive the swap exactly where they were digits before it. */
  lemma SwapDigits(s: string)
    ensures AllDigits(SwapSeparator(s)) <==> AllDigits(s)
  {
    var t := SwapSeparator(s);
    if AllDigits(t) {
      forall k | 0 <= k < |s| ensures Scrape.IsDigit(s[k]) {
        assert t[k] == SwapChar(s[k]);
      }
    }
  }

  /** The swap moves a `.` fraction to a `,` fraction, and makes none where
      there was none. */
  lemma SwapFraction(s: string)
    requires ',' !in s
    ensures HasFraction(SwapSeparator(s), ',') <==> HasFraction(s, '.')
    ensures HasFraction(s, '.') ==>
      var n := |s|;
      SwapSeparator(s)[..n - 3] == s[..n - 3] && SwapSeparator(s)[n - 2..] == s[n - 2..]
  {
    var n := |s|;
    if n >= 4 {
      SwapSliceDigits(s, 0, n - 3);
      SwapSliceDigits(s, n - 2, n);
      assert s[n - 3] in s;
    }
  }

  /**
   * The locale workaround is value-preserving: a version written with `.`
   * and read with `.` as decimal separator has the same value as its
   * `,`-swapped form read with `,` as separator ("536.23" and "536,23").
   */
  lemma {:induction false} SwapPreservesValue(s: string)
    requires ',' !in s
    ensures ParseFixed(SwapSeparator(s), ',') == ParseFixed(s, '.')
  {
    SwapFraction(s);
    if !HasFraction(s, '.') {
      SwapDigits(s);
      if AllDigits(s) {
        SwapKeepsDigits(s);
      }
    }
  }

  /** Every scraped online version parses under either separator convention:
      directly with `.`, and after the swap with `,`, to the same value. */
  lemma ScrapedVersionParses(v: string)
    requires Scrape.IsVersion(v)
    ensures ParseFixed(v, '.') == Some(DigitsValue(v[..3]) * 100 + DigitsValue(v[4..]))
    ensures ParseFixed(SwapSeparator(v), ',') == ParseFixed(v, '.')
    ensures ParseFixed(v, ',').None?
  {
    assert v[..|v| - 3] == v[..3];
    assert v[|v| - 2..] == v[4..];
    assert AllDigits(v[..3]) && AllDigits(v[4..]);
    assert v[3] == '.';
    SwapPreservesValue(v);
  }

  /**
   * Culture independence of the decision: for a local version written with
   * `.` that parses with `.`, and a scraped online version, a culture using
   * `,` reaches the same verdict as a culture using `.`, on the retry.
   */
  lemma FallbackAgrees(local: string, online: string)
    requires ',' !in local && ParseFixed(local, '.').Some?
    requires Scrape.IsVersion(online)
    ensures CompareVersions(Some(local), online, '.') == Ok(Verdict(ParseFixed(local, '.').value < ParseFixed(online, '.').value, false))
    ensures CompareVersions(Some(local), online, ',').Ok?
    ensures CompareVersions(Some(local), online, ',').value.fallback
    ensures CompareVersions(Some(local), online, ',').value.older
            == CompareVersions(Some(local), online, '.').value.older
  {
    SwapPreservesValue(local);
    ScrapedVersionParses(online);
  }
}
