/**
 * Turning the output of `git tag` into a list of tag names, and the loop that
 * keeps the highest conforming `MAJOR.MINOR` pair together with `foundTag`.
 */
module Scanning {
  import opened Wrappers
  import opened Text
  import opened Versions

  /** The running state of the scan: `(latestMajor, latestMinor)` and `foundTag`. */
  datatype VersionState = VersionState(latest: Version, found: bool)

  const Initial := VersionState(Version(0, 0), false)

  /** `output.trim()`, then no tags when that is empty and its `\n`-separated lines otherwise. */
  function TagList(output: string): (tags: seq<string>)
  {
    var t := Trim(output);
    if t == "" then [] else SplitLines(t)
  }

  lemma TagListLines(output: string)
    ensures TagList(output) == [] <==> Trim(output) == ""
    ensures Trim(output) != "" ==> JoinLines(TagList(output)) == Trim(output)
    ensures forall i :: 0 <= i < |TagList(output)| ==> '\n' !in TagList(output)[i]
  {
    if Trim(output) != "" {
      JoinSplit(Trim(output));
    }
  }

  /** One iteration of the loop: skip a tag that does not match, otherwise record it and keep the greater pair. */
  function Step(st: VersionState, tag: string): VersionState
  {
    match ParseTag(tag)
    case None => st
    case Some(v) => VersionState(if Greater(v, st.latest) then v else st.latest, true)
  }

  /** The state after the loop has run over all of `tags`, in order. */
  function Scan(tags: seq<string>): VersionState
  {
    if tags == [] then Initial
    else Step(Scan(tags[..|tags| - 1]), tags[|tags| - 1])
  }

  /** The `for (const tag of tags)` loop, updating the three variables in place. */
  method ScanTags(tags: seq<string>) returns (latestMajor: nat, latestMinor: nat, foundTag: bool)
    ensures VersionState(Version(latestMajor, latestMinor), foundTag) == Scan(tags)
  {
    latestMajor, latestMinor, foundTag := 0, 0, false;
    for i := 0 to |tags|
      invariant VersionState(Version(latestMajor, latestMinor), foundTag) == Scan(tags[..i])
    {
      assert tags[..i + 1][..i] == tags[..i];
      var tag := tags[i];
      var match_ := ParseTag(tag);
      if match_.None? {
        continue;
      }
      foundTag := true;
      var major, minor := match_.value.major, match_.value.minor;
      if major > latestMajor || (major == latestMajor && minor > latestMinor) {
        latestMajor := major;
        latestMinor := minor;
      }
    }
    assert tags[..|tags|] == tags;
  }

  /** `foundTag` holds exactly when some tag matches; otherwise the pair keeps its placeholder `(0, 0)`. */
  lemma {:induction false} ScanFound(tags: seq<string>)
    ensures Scan(tags).found <==> exists i :: 0 <= i < |tags| && ParseTag(tags[i]).Some?
    ensures !Scan(tags).found ==> Scan(tags).latest == Version(0, 0)
  {
    if tags != [] {
      var init := tags[..|tags| - 1];
      ScanFound(init);
      assert forall i :: 0 <= i < |init| ==> init[i] == tags[i];
    }
  }

  /** No matching tag is above the result. */
  lemma {:induction false} ScanUpperBound(tags: seq<string>)
    ensures forall i :: 0 <= i < |tags| && ParseTag(tags[i]).Some? ==>
              AtMost(ParseTag(tags[i]).value, Scan(tags).latest)
  {
    if tags != [] {
      var init := tags[..|tags| - 1];
      ScanUpperBound(init);
      assert forall i :: 0 <= i < |init| ==> init[i] == tags[i];
    }
  }

  /** When a tag was found, the result is the pair of one of the tags. */
  lemma {:induction false} ScanAttained(tags: seq<string>)
    ensures Scan(tags).found ==>
              exists i :: 0 <= i < |tags| && ParseTag(tags[i]) == Some(Scan(tags).latest)
  {
    if tags != [] {
      var n := |tags|;
      var init := tags[..n - 1];
      ScanAttained(init);
      ScanFound(init);
      assert forall i :: 0 <= i < |init| ==> init[i] == tags[i];
      var st := Scan(init);
      match ParseTag(tags[n - 1])
      case None =>
      case Some(v) =>
        if !Greater(v, st.latest) && st.found {
          var i :| 0 <= i < |init| && ParseTag(init[i]) == Some(st.latest);
          assert ParseTag(tags[i]) == Some(Scan(tags).latest);
        } else {
          assert ParseTag(tags[n - 1]) == Some(Scan(tags).latest);
        }
    }
  }

  /** `v` is the pair of some tag in `tags`. */
  ghost predicate Conforms(tags: seq<string>, v: Version)
  {
    exists i :: 0 <= i < |tags| && ParseTag(tags[i]) == Some(v)
  }

  /** When a tag was found, the result is the one lexicographic maximum of the matching pairs. */
  lemma ScanIsMaximum(tags: seq<string>, v: Version)
    requires Scan(tags).found
    requires Conforms(tags, v)
    requires forall i :: 0 <= i < |tags| && ParseTag(tags[i]).Some? ==> AtMost(ParseTag(tags[i]).value, v)
    ensures v == Scan(tags).latest
  {
    ScanUpperBound(tags);
    ScanAttained(tags);
  }

  /** The scan only sees which pairs occur among the tags. */
  lemma ScanDeterminedByPairs(a: seq<string>, b: seq<string>)
    requires forall v :: Conforms(a, v) <==> Conforms(b, v)
    ensures Scan(a) == Scan(b)
  {
    ScanFound(a);
    ScanFound(b);
    ScanUpperBound(a);
    ScanUpperBound(b);
    ScanAttained(a);
    ScanAttained(b);
    if exists i :: 0 <= i < |a| && ParseTag(a[i]).Some? {
      var i :| 0 <= i < |a| && ParseTag(a[i]).Some?;
      assert Conforms(a, ParseTag(a[i]).value);
      var j :| 0 <= j < |b| && ParseTag(b[j]) == ParseTag(a[i]);
      assert Conforms(a, Scan(a).latest) && Conforms(b, Scan(b).latest);
    } else if exists j :: 0 <= j < |b| && ParseTag(b[j]).Some? {
      var j :| 0 <= j < |b| && ParseTag(b[j]).Some?;
      assert Conforms(b, ParseTag(b[j]).value);
    }
  }

  /** Reordering the tags (as `git tag` may list them in any order) does not change the result. */
  lemma ScanOrderIrrelevant(a: seq<string>, b: seq<string>)
    requires multiset(a) == multiset(b)
    ensures Scan(a) == Scan(b)
  {
    forall v ensures Conforms(a, v) <==> Conforms(b, v)
    {
      if Conforms(a, v) {
        var i :| 0 <= i < |a| && ParseTag(a[i]) == Some(v);
        assert a[i] in multiset(b);
        var j :| 0 <= j < |b| && b[j] == a[i];
      }
      if Conforms(b, v) {
        var j :| 0 <= j < |b| && ParseTag(b[j]) == Some(v);
        assert b[j] in multiset(a);
        var i :| 0 <= i < |a| && a[i] == b[j];
      }
    }
    ScanDeterminedByPairs(a, b);
  }

  /** A tag that does not match, wherever it stands in the list, changes nothing. */
  lemma ScanIgnoresNonConforming(a: seq<string>, junk: string, b: seq<string>)
    requires ParseTag(junk) == None
    ensures Scan(a + [junk] + b) == Scan(a + b)
  {
    var l, r := a + [junk] + b, a + b;
    forall v ensures Conforms(l, v) <==> Conforms(r, v)
    {
      if Conforms(l, v) {
        var i :| 0 <= i < |l| && ParseTag(l[i]) == Some(v);
        if i < |a| {
          assert r[i] == l[i];
        } else {
          assert i > |a| && r[i - 1] == l[i];
        }
      }
      if Conforms(r, v) {
        var i :| 0 <= i < |r| && ParseTag(r[i]) == Some(v);
        if i < |a| {
          assert l[i] == r[i];
        } else {
          assert l[i + 1] == r[i];
        }
      }
    }
    ScanDeterminedByPairs(l, r);
  }

  /** The worked example: `1.10` is above `1.2`, `2.0` is above both, `v3.0` and `abc` are skipped. */
  lemma ScanExample()
    ensures Scan(["1.2", "1.10", "2.0", "v3.0", "abc"]) == VersionState(Version(2, 0), true)
  {
    var tags := ["1.2", "1.10", "2.0", "v3.0", "abc"];
    ParsesOneTwo();
    ParsesOneTen();
    ParsesTwoZero();
    NonConformingTags();
    var s1 := Step(Initial, "1.2");
    var s2 := Step(s1, "1.10");
    var s3 := Step(s2, "2.0");
    var s4 := Step(s3, "v3.0");
    assert s4 == VersionState(Version(2, 0), true);
    assert Step(s4, "abc") == s4;
    assert tags[..1][..0] == [];
    assert tags[..2][..1] == tags[..1];
    assert tags[..3][..2] == tags[..2];
    assert tags[..4][..3] == tags[..3];
    assert tags[..5][..4] == tags[..4];
    assert Scan(tags[..1]) == s1;
    assert Scan(tags[..2]) == s2;
    assert Scan(tags[..3]) == s3;
    assert Scan(tags[..4]) == s4;
    assert tags[..5] == tags;
  }
}
