/** Whole runs on small repositories, stated over the shell model. */
module Scenarios {
  import opened Wrappers
  import opened Text
  import opened Versions
  import opened Scanning
  import opened Bump
  import opened Tagger

  /** Text without a `#` holds no marker. */
  lemma NoHashNoMarker(messages: string)
    requires '#' !in messages
    ensures !HasMarker(messages)
  {
    ContainsIff(messages, Marker);
    assert forall i :: OccursAt(messages, Marker, i) ==> messages[i] == '#';
  }

  /** The listing `0.1\n0.2\n1.0\n` is trimmed and split into three tags. */
  lemma ExampleTagList()
    ensures TagList("0.1\n0.2\n1.0\n") == ["0.1", "0.2", "1.0"]
  {
    var tags := ["0.1", "0.2", "1.0"];
    assert JoinLines(tags) == "0.1\n0.2\n1.0";
    SplitJoin(tags);
    var out := "0.1\n0.2\n1.0\n";
    assert TrimStart(out) == out;
    assert out[..|out| - 1] == "0.1\n0.2\n1.0";
    assert TrimEnd(out[..|out| - 1]) == "0.1\n0.2\n1.0";
  }

  /** Of `0.1`, `0.2` and `1.0`, the highest is `1.0`. */
  lemma ExampleScan()
    ensures Scan(["0.1", "0.2", "1.0"]) == VersionState(Version(1, 0), true)
  {
    var tags := ["0.1", "0.2", "1.0"];
    ParseFormat(Version(0, 1));
    ParseFormat(Version(0, 2));
    ParseFormat(Version(1, 0));
    assert FormatTag(Version(0, 1)) == "0.1";
    assert FormatTag(Version(0, 2)) == "0.2";
    assert FormatTag(Version(1, 0)) == "1.0";
    assert tags[..1][..0] == [] && tags[..2][..1] == tags[..1] && tags[..3][..2] == tags[..2];
    assert Scan(tags[..1]) == VersionState(Version(0, 1), true);
    assert Scan(tags[..2]) == VersionState(Version(0, 2), true);
    assert tags[..3] == tags;
  }

  /**
   * Tags `0.1`, `0.2` and `1.0`, and no marker after `1.0`: the range
   * queried is `1.0..HEAD` and the new tag is `1.1`, not a major bump.
   */
  lemma ExistingTagsMinorBump(shell: Shell)
    requires ListTags in shell.outputs && shell.outputs[ListTags] == "0.1\n0.2\n1.0\n"
    requires RangeMessages("1.0..HEAD") in shell.outputs
    requires !HasMarker(shell.outputs[RangeMessages("1.0..HEAD")])
    ensures MessageQuery(LatestOf(shell)) == RangeMessages("1.0..HEAD")
    ensures ReleaseOf(shell) == Release("1.1", 1, 1, false)
  {
    var st := LatestOf(shell);
    assert st == VersionState(Version(1, 0), true) by {
      assert Output(shell, ListTags) == "0.1\n0.2\n1.0\n";
      ExampleTagList();
      ExampleScan();
    }
    assert MessageQuery(st) == RangeMessages("1.0..HEAD") by {
      assert FormatTag(Version(1, 0)) == "1.0";
    }
    assert !BumpOf(shell);
    assert NextVersion(st, false) == Version(1, 1);
    assert FormatTag(Version(1, 1)) == "1.1";
  }

  /** The HEAD message `fix: bug #major`, trimmed, holds the marker. */
  lemma ExampleHeadMessage(message: string)
    requires message == "fix: bug #major\n"
    ensures HasMarker(Trim(message))
  {
    assert OccursAt(message, Marker, 9);
    ContainsIff(message, Marker);
    TrimKeepsContains(message, Marker);
  }

  /** No tags and a HEAD message `fix: bug #major`: the new tag is `1.0`, a major bump. */
  lemma FirstReleaseMajorBump(shell: Shell)
    requires ListTags in shell.outputs && Trim(shell.outputs[ListTags]) == ""
    requires HeadMessage in shell.outputs && shell.outputs[HeadMessage] == "fix: bug #major\n"
    ensures MessageQuery(LatestOf(shell)) == HeadMessage
    ensures ReleaseOf(shell) == Release("1.0", 1, 0, true)
  {
    ExampleHeadMessage(shell.outputs[HeadMessage]);
    assert FormatTag(Version(1, 0)) == "1.0";
  }

  /** No tags and no marker on HEAD: the first tag is `0.1`. */
  lemma FirstReleaseMinor(shell: Shell)
    requires ListTags in shell.outputs && Trim(shell.outputs[ListTags]) == ""
    requires HeadMessage in shell.outputs && !HasMarker(shell.outputs[HeadMessage])
    ensures ReleaseOf(shell) == Release("0.1", 0, 1, false)
  {
    var message := shell.outputs[HeadMessage];
    TrimKeepsContains(message, Marker);
    assert FormatTag(Version(0, 1)) == "0.1";
  }
  /** The listing `01.2` holds that one tag. */
  lemma ZeroPaddedList()
    ensures TagList("01.2") == ["01.2"]
  {
    var out := "01.2";
    assert TrimStart(out) == out && TrimEnd(out) == out;
    SplitLinesNoBreak(out);
  }

  /** Scanning the lone tag `01.2` finds the pair `(1, 2)`. */
  lemma ZeroPaddedScan()
    ensures Scan(["01.2"]) == VersionState(Version(1, 2), true)
  {
    ZeroPaddedTag();
    assert ["01.2"][..0] == [];
  }

  /** The range after `(1, 2)` is `1.2..HEAD`. */
  lemma RangeAfterOneTwo()
    ensures RangeAfter(Version(1, 2)) == "1.2..HEAD"
  {
    ZeroPaddedTag();
  }

  /**
   * A lone tag `01.2` is read as `(1, 2)`, so the messages are asked for in
   * `1.2..HEAD`, a range named by no listed tag.
   */
  lemma ZeroPaddedTagRange(shell: Shell)
    requires ListTags in shell.outputs && shell.outputs[ListTags] == "01.2"
    ensures LatestOf(shell) == VersionState(Version(1, 2), true)
    ensures MessageQuery(LatestOf(shell)) == RangeMessages("1.2..HEAD")
    ensures "1.2" !in TagList(shell.outputs[ListTags])
  {
    assert Output(shell, ListTags) == "01.2";
    ZeroPaddedList();
    ZeroPaddedScan();
    RangeAfterOneTwo();
  }

  /**
   * When no ref is named `1.2`, the lone tag `01.2` makes the run stop at the
   * `git log 1.2..HEAD` query: the run fails, and once the fetch and the
   * listing succeed it fails at that query.
   */
  method ZeroPaddedRunFails(shell: Shell) returns (trace: seq<Command>, result: Result<Release, Failure>)
    requires ListTags in shell.outputs && shell.outputs[ListTags] == "01.2"
    requires RangeMessages("1.2..HEAD") !in shell.outputs
    ensures result.Err?
    ensures FetchTags in shell.outputs ==> result.error == CommandFailed(RangeMessages("1.2..HEAD"))
  {
    ZeroPaddedTagRange(shell);
    ghost var script := Commands(shell);
    assert script[2] == RangeMessages("1.2..HEAD");
    assert !AllSucceed(shell, script);
    trace, result := TagVersion(shell);
    // Every command before the last succeeded, so the query at index 2 is last or later.
    assert |trace| <= 3 by {
      assert forall i :: 0 <= i < |trace| ==> trace[i] == script[i];
    }
  }
}
