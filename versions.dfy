/**
 * Version tags of the form `MAJOR.MINOR`: recognising a tag with the pattern
 * `^(\d+)\.(\d+)$`, reading it as a pair of naturals with `parseInt`, and
 * writing a pair back with the template `${major}.${minor}`.
 */
module Versions {
  import opened Wrappers
  import opened Text

  datatype Version = Version(major: nat, minor: nat)

  /** The update test of the scan: `major > M || (major === M && minor > m)`. */
  predicate Greater(v: Version, w: Version)
  {
    v.major > w.major || (v.major == w.major && v.minor > w.minor)
  }

  /** The lexicographic order (major first, then minor) that `Greater` is the strict part of. */
  predicate AtMost(v: Version, w: Version)
  {
    v.major < w.major || (v.major == w.major && v.minor <= w.minor)
  }

  lemma GreaterIsStrictOrder(u: Version, v: Version, w: Version)
    ensures !Greater(v, v)
    ensures Greater(u, v) && Greater(v, w) ==> Greater(u, w)
    ensures Greater(v, w) || v == w || Greater(w, v)
    ensures !Greater(v, w) <==> AtMost(v, w)
  {
  }

  /** The whole of `s` matches `^(\d+)\.(\d+)$`, the dot sitting at position `k`. */
  predicate MatchesAt(s: string, k: int)
  {
    0 <= k < |s| && IsDigits(s[..k]) && s[k] == '.' && IsDigits(s[k + 1..])
  }

  /** `tag.match(/^(\d+)\.(\d+)$/)` succeeds. */
  ghost predicate MatchesTagPattern(s: string)
  {
    exists k :: MatchesAt(s, k)
  }

  /**
   * The tag's `(major, minor)` when it matches the pattern, read with
   * `parseInt` (so leading zeros are dropped), and `None` otherwise.
   */
  function ParseTag(s: string): (r: Option<Version>)
    ensures r.Some? ==> MatchesAt(s, IndexOf(s, '.'))
  {
    var k := IndexOf(s, '.');
    if k < |s| && IsDigits(s[..k]) && IsDigits(s[k + 1..]) then
      Some(Version(DigitsValue(s[..k]), DigitsValue(s[k + 1..])))
    else
      None
  }

  /** `${major}.${minor}`. */
  function FormatTag(v: Version): string
  {
    NatToString(v.major) + "." + NatToString(v.minor)
  }

  /** The only place a matching tag can have its dot is its first dot. */
  lemma MatchIsAtFirstDot(s: string, k: int)
    requires MatchesAt(s, k)
    ensures IndexOf(s, '.') == k
  {
    var j := IndexOf(s, '.');
    assert j >= k by {
      assert forall i :: 0 <= i < k ==> s[..k][i] != '.';
    }
  }

  /** `ParseTag` accepts exactly the strings the regular expression matches, and reads both groups. */
  lemma ParseTagIff(s: string)
    ensures ParseTag(s).Some? <==> MatchesTagPattern(s)
    ensures forall k :: MatchesAt(s, k) ==>
              ParseTag(s) == Some(Version(DigitsValue(s[..k]), DigitsValue(s[k + 1..])))
  {
    if MatchesTagPattern(s) {
      var k :| MatchesAt(s, k);
      MatchIsAtFirstDot(s, k);
    }
    forall k | MatchesAt(s, k)
      ensures ParseTag(s) == Some(Version(DigitsValue(s[..k]), DigitsValue(s[k + 1..])))
    {
      MatchIsAtFirstDot(s, k);
    }
  }

  /** A formatted tag matches the pattern and reads back as the same pair. */
  lemma ParseFormat(v: Version)
    ensures MatchesAt(FormatTag(v), |NatToString(v.major)|)
    ensures ParseTag(FormatTag(v)) == Some(v)
  {
    var a, b := NatToString(v.major), NatToString(v.minor);
    var s := FormatTag(v);
    assert s[..|a|] == a;
    assert s[|a| + 1..] == b;
    assert MatchesAt(s, |a|);
    MatchIsAtFirstDot(s, |a|);
    ParseNatToString(v.major);
    ParseNatToString(v.minor);
  }

  /** Distinct pairs are written as distinct tags. */
  lemma FormatInjective(v: Version, w: Version)
    requires FormatTag(v) == FormatTag(w)
    ensures v == w
  {
    ParseFormat(v);
    ParseFormat(w);
  }

  /** Tags with a zero-padded group read as the unpadded pair: `01.2` is `(1, 2)` and is written back as `1.2`. */
  lemma ZeroPaddedTag()
    ensures ParseTag("01.2") == Some(Version(1, 2))
    ensures FormatTag(Version(1, 2)) == "1.2"
  {
    assert MatchesAt("01.2", 2);
    ParseTagIff("01.2");
    assert "01.2"[..2] == "0" + "1";
    LeadingZero("1");
  }

  /** Tags the pattern refuses: a prefix, a third group, no digits, an empty group. */
  lemma NonConformingTags()
    ensures ParseTag("v3.0") == None
    ensures ParseTag("1.2.3") == None
    ensures ParseTag("abc") == None
    ensures ParseTag("1.") == None
  {
    assert !IsDigit('v');
    assert "v3.0"[..1] == "v";
    assert "1.2.3"[2..] == "2.3";
    assert !IsDigit('.');
    assert "1.2.3"[2..][1] == '.';
    assert "1."[2..] == "";
  }

  /** The tags of the worked example that match, one lemma each. */
  lemma ParsesOneTwo()
    ensures ParseTag("1.2") == Some(Version(1, 2))
  {
  }

  lemma ParsesOneTen()
    ensures ParseTag("1.10") == Some(Version(1, 10))
  {
  }

  lemma ParsesTwoZero()
    ensures ParseTag("2.0") == Some(Version(2, 0))
  {
  }
}
