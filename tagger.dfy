/**
 * The action's script from `git fetch` to `git push`, with every `git`
 * invocation made through an abstract shell. The shell answers a command
 * with its standard output, or makes it fail (a non-zero exit, which
 * `execSync` turns into an exception that ends the run).
 */
module Tagger {
  import opened Wrappers
  import opened Text
  import opened Versions
  import opened Scanning
  import opened Bump

  /** The `git` commands the script issues, in the order it issues them. */
  datatype Command =
    | FetchTags                      // git fetch --tags --force
    | ListTags                       // git tag
    | HeadMessage                    // git log -1 --pretty=%B
    | RangeMessages(range: string)   // git log <range> --pretty=%B
    | SetUserName                    // git config user.name ...
    | SetUserEmail                   // git config user.email ...
    | SetRemoteUrl                   // git remote set-url origin <authenticated URL>
    | CreateTag(name: string)        // git tag <name>
    | PushTag(name: string)          // git push origin <name>

  /** The repository as the script sees it: commands that succeed, with their output. */
  datatype Shell = Shell(outputs: map<Command, string>)

  /** Why a run stopped. */
  datatype Failure = CommandFailed(command: Command) | InputMissing(name: string)

  /** What the run reports: the new tag, its two components and the bump decision. */
  datatype Release = Release(newTag: string, major: nat, minor: nat, isMajorBump: bool)

  /** What a command prints when it succeeds (empty when it would fail). */
  function Output(shell: Shell, c: Command): string
  {
    if c in shell.outputs then shell.outputs[c] else ""
  }

  /** `${latestMajor}.${latestMinor}..HEAD`: the commits after the highest tag, named by the pair rather than the tag text. */
  function RangeAfter(v: Version): string
  {
    FormatTag(v) + "..HEAD"
  }

  /** The message query: HEAD alone when no tag was found, otherwise the range after the highest pair. */
  function MessageQuery(st: VersionState): Command
  {
    if !st.found then HeadMessage else RangeMessages(RangeAfter(st.latest))
  }

  /** The highest pair among the listed tags. */
  function LatestOf(shell: Shell): VersionState
  {
    Scan(TagList(Output(shell, ListTags)))
  }

  /** The bump decision taken on the output of the message query. */
  function BumpOf(shell: Shell): bool
  {
    var st := LatestOf(shell);
    IsMajorBump(st, Output(shell, MessageQuery(st)))
  }

  /** The release a successful run reports. */
  function ReleaseOf(shell: Shell): Release
  {
    var v := NextVersion(LatestOf(shell), BumpOf(shell));
    Release(FormatTag(v), v.major, v.minor, BumpOf(shell))
  }

  /** The commands that read the repository, once the scan gave `st`. */
  function InspectScript(st: VersionState): seq<Command>
  {
    [FetchTags, ListTags, MessageQuery(st)]
  }

  /** The commands that configure the identity and remote, then create and push `tag`. */
  function PublishScript(tag: string): seq<Command>
  {
    [SetUserName, SetUserEmail, SetRemoteUrl, CreateTag(tag), PushTag(tag)]
  }

  /** The commands of a run that meets no failure, once the scan gave `st` and the new tag is `tag`. */
  function Script(st: VersionState, tag: string): seq<Command>
  {
    InspectScript(st) + PublishScript(tag)
  }

  /** Every command of a run that meets no failure, in order. */
  function Commands(shell: Shell): seq<Command>
  {
    Script(LatestOf(shell), ReleaseOf(shell).newTag)
  }

  /** Every command in `cmds` succeeds. */
  predicate AllSucceed(shell: Shell, cmds: seq<Command>)
  {
    forall i :: 0 <= i < |cmds| ==> cmds[i] in shell.outputs
  }

  /** Runs one command, appending it to the trace of issued commands. */
  method Exec(shell: Shell, trace: seq<Command>, c: Command)
    returns (trace': seq<Command>, out: Result<string, Failure>)
    ensures trace' == trace + [c] && trace'[..|trace|] == trace
    ensures AllSucceed(shell, trace) ==> (out.Ok? <==> AllSucceed(shell, trace'))
    ensures out.Ok? <==> c in shell.outputs
    ensures out.Ok? ==> out.value == shell.outputs[c]
    ensures out.Err? ==> out.error == CommandFailed(c)
  {
    trace' := trace + [c];
    assert trace'[|trace|] == c;
    if c in shell.outputs {
      out := Ok(shell.outputs[c]);
    } else {
      out := Err(CommandFailed(c));
    }
  }

  /**
   * The first stage of the script: fetch and list the tags, scan them, read
   * the commit messages and decide the bump, then compute the next pair and
   * its tag. It stops at the first command that fails.
   */
  method Inspect(shell: Shell) returns (trace: seq<Command>, result: Result<Release, Failure>)
    ensures trace != [] && trace <= InspectScript(LatestOf(shell))
    ensures AllSucceed(shell, trace[..|trace| - 1])
    ensures result.Err? ==> trace[|trace| - 1] !in shell.outputs && result.error == CommandFailed(trace[|trace| - 1])
    ensures result.Ok? ==> trace == InspectScript(LatestOf(shell)) && AllSucceed(shell, trace)
    ensures result.Ok? ==> result.value == ReleaseOf(shell)
  {
    ghost var st := LatestOf(shell);
    ghost var plan := InspectScript(st);

    var out;
    assert AllSucceed(shell, []);
    trace, out := Exec(shell, [], FetchTags);
    if out.Err? { return trace, Err(out.error); }

    trace, out := Exec(shell, trace, ListTags);
    if out.Err? { return trace, Err(out.error); }
    var tags := TagList(out.value);
    assert trace == plan[..2];

    var latestMajor, latestMinor, foundTag := ScanTags(tags);
    assert VersionState(Version(latestMajor, latestMinor), foundTag) == st;

    var isMajorBump := false;
    if !foundTag {
      trace, out := Exec(shell, trace, HeadMessage);
      if out.Err? { return trace, Err(out.error); }
      var headMessage := Trim(out.value);
      if Contains(headMessage, Marker) {
        isMajorBump := true;
      }
    } else {
      var range := FormatTag(Version(latestMajor, latestMinor)) + "..HEAD";
      trace, out := Exec(shell, trace, RangeMessages(range));
      if out.Err? { return trace, Err(out.error); }
      var commitMessages := out.value;
      if Contains(commitMessages, Marker) {
        isMajorBump := true;
      }
    }
    assert trace == plan;
    assert isMajorBump == BumpOf(shell);

    var newMajor: nat, newMinor: nat;
    if !foundTag {
      newMajor := if isMajorBump then 1 else 0;
      newMinor := if isMajorBump then 0 else 1;
    } else {
      if isMajorBump {
        newMajor := latestMajor + 1;
        newMinor := 0;
      } else {
        newMajor := latestMajor;
        newMinor := latestMinor + 1;
      }
    }
    assert Version(newMajor, newMinor) == NextVersion(st, isMajorBump);
    var newTag := FormatTag(Version(newMajor, newMinor));
    result := Ok(Release(newTag, newMajor, newMinor, isMajorBump));
  }

  /**
   * The second stage: set the committer identity, point `origin` at the
   * authenticated URL, create the tag and push it. It stops at the first
   * command that fails.
   */
  method Publish(shell: Shell, tag: string) returns (trace: seq<Command>, failure: Option<Failure>)
    ensures trace != [] && trace <= PublishScript(tag)
    ensures AllSucceed(shell, trace[..|trace| - 1])
    ensures failure.Some? ==> trace[|trace| - 1] !in shell.outputs && failure.value == CommandFailed(trace[|trace| - 1])
    ensures failure.None? ==> trace == PublishScript(tag) && AllSucceed(shell, trace)
  {
    var out;
    assert AllSucceed(shell, []);
    trace, out := Exec(shell, [], SetUserName);
    if out.Err? { return trace, Some(out.error); }
    trace, out := Exec(shell, trace, SetUserEmail);
    if out.Err? { return trace, Some(out.error); }
    trace, out := Exec(shell, trace, SetRemoteUrl);
    if out.Err? { return trace, Some(out.error); }
    trace, out := Exec(shell, trace, CreateTag(tag));
    if out.Err? { return trace, Some(out.error); }
    trace, out := Exec(shell, trace, PushTag(tag));
    if out.Err? { return trace, Some(out.error); }
    failure := None;
  }

  /** All of `a + b` succeeds exactly when all of `a` and all of `b` do. */
  lemma AllSucceedAppend(shell: Shell, a: seq<Command>, b: seq<Command>)
    ensures AllSucceed(shell, a + b) <==> AllSucceed(shell, a) && AllSucceed(shell, b)
  {
    if AllSucceed(shell, a) && AllSucceed(shell, b) {
      forall i | 0 <= i < |a + b| ensures (a + b)[i] in shell.outputs {
        if i >= |a| { assert (a + b)[i] == b[i - |a|]; }
      }
    }
    if AllSucceed(shell, a + b) {
      forall i | 0 <= i < |a| ensures a[i] in shell.outputs {
        assert (a + b)[i] == a[i];
      }
      forall i | 0 <= i < |b| ensures b[i] in shell.outputs {
        assert (a + b)[|a| + i] == b[i];
      }
    }
  }

  /**
   * The script between reading the token and reporting, from `git fetch` to
   * `git push`. The run stops at the first command that fails; every command
   * before it succeeded, and the commands issued are a prefix of the commands
   * of a run without failure.
   */
  method TagVersion(shell: Shell) returns (trace: seq<Command>, result: Result<Release, Failure>)
    ensures trace != [] && trace <= Commands(shell)
    ensures AllSucceed(shell, trace[..|trace| - 1])
    ensures result.Err? ==> trace[|trace| - 1] !in shell.outputs && result.error == CommandFailed(trace[|trace| - 1])
    ensures result.Ok? ==> trace == Commands(shell) && AllSucceed(shell, trace)
    ensures result.Ok? ==> result.value == ReleaseOf(shell)
  {
    ghost var st := LatestOf(shell);
    trace, result := Inspect(shell);
    if result.Err? {
      return;
    }
    var release := result.value;
    var published, failure := Publish(shell, release.newTag);
    ghost var first := trace;
    trace := trace + published;
    AllSucceedAppend(shell, first, published[..|published| - 1]);
    assert trace[..|trace| - 1] == first + published[..|published| - 1];
    if failure.Some? {
      return trace, Err(failure.value);
    }
    AllSucceedAppend(shell, first, published);
  }

  /** In a script, the only `git tag <name>` is the seventh command and the only push the eighth, both of `tag`. */
  lemma ScriptTags(st: VersionState, tag: string)
    ensures forall i :: 0 <= i < |Script(st, tag)| && Script(st, tag)[i].CreateTag? ==>
              i == 6 && Script(st, tag)[i].name == tag
    ensures forall i :: 0 <= i < |Script(st, tag)| && Script(st, tag)[i].PushTag? ==>
              i == 7 && Script(st, tag)[i].name == tag
  {
  }

  /**
   * A successful run creates exactly one tag and pushes exactly that tag, and
   * its name is the reported tag, which reads back as the reported pair.
   */
  lemma CreatedTagIsPushedTag(shell: Shell)
    ensures forall i :: 0 <= i < |Commands(shell)| && Commands(shell)[i].CreateTag? ==>
              i == 6 && Commands(shell)[i].name == ReleaseOf(shell).newTag
    ensures forall i :: 0 <= i < |Commands(shell)| && Commands(shell)[i].PushTag? ==>
              i == 7 && Commands(shell)[i].name == ReleaseOf(shell).newTag
    ensures ParseTag(ReleaseOf(shell).newTag) == Some(Version(ReleaseOf(shell).major, ReleaseOf(shell).minor))
  {
    var r := ReleaseOf(shell);
    ScriptTags(LatestOf(shell), r.newTag);
    ParseFormat(Version(r.major, r.minor));
  }

  /** The new tag is above every version tag listed and is not among the listed tags. */
  lemma NewTagIsFresh(shell: Shell)
    ensures forall t :: t in TagList(Output(shell, ListTags)) && ParseTag(t).Some? ==>
              Greater(Version(ReleaseOf(shell).major, ReleaseOf(shell).minor), ParseTag(t).value)
    ensures ReleaseOf(shell).newTag !in TagList(Output(shell, ListTags))
  {
    var tags := TagList(Output(shell, ListTags));
    NextAboveAllTags(tags, BumpOf(shell));
    forall t | t in tags && ParseTag(t).Some?
      ensures Greater(Version(ReleaseOf(shell).major, ReleaseOf(shell).minor), ParseTag(t).value)
    {
      var i :| 0 <= i < |tags| && tags[i] == t;
    }
  }

  /** The reported bump is exactly whether the inspected message text contains `#major`. */
  lemma ReportedBump(shell: Shell)
    ensures ReleaseOf(shell).isMajorBump <==>
              Contains(Output(shell, MessageQuery(LatestOf(shell))), Marker)
    ensures ReleaseOf(shell).isMajorBump <==> ReleaseOf(shell).minor == 0
  {
    var st := LatestOf(shell);
    TrimKeepsContains(Output(shell, MessageQuery(st)), Marker);
  }
}
