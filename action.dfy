/**
 * The bundled entry point: its own `getInput` (an `INPUT_<NAME>` environment
 * variable, required here), its own `setOutput` (a `name=value` record), and
 * the top-level run that reads the token before any `git` command, runs the
 * script and reports four records, or reports nothing when anything fails.
 */
module Action {
  import opened Wrappers
  import opened Text
  import opened Versions
  import opened Tagger

  /** The environment variable an input is passed in: `INPUT_${name.toUpperCase()}`. */
  function InputKey(name: string): string
  {
    "INPUT_" + ToUpper(name)
  }

  lemma TokenInputKey()
    ensures InputKey("github_token") == "INPUT_GITHUB_TOKEN"
  {
    var u := ToUpper("github_token");
    assert forall i :: 0 <= i < |u| ==> u[i] == "GITHUB_TOKEN"[i];
  }

  /**
   * `getInput(name, { required })`: the variable's value, absent when it is
   * unset; a required input that is unset or empty throws instead.
   */
  function GetInput(env: map<string, string>, name: string, required: bool): (r: Result<Option<string>, Failure>)
    ensures r.Err? <==> required && (InputKey(name) !in env || env[InputKey(name)] == "")
    ensures r.Err? ==> r.error == InputMissing(name)
    ensures r.Ok? && InputKey(name) in env ==> r.value == Some(env[InputKey(name)])
    ensures r.Ok? && InputKey(name) !in env ==> r.value == None && !required
  {
    var key := InputKey(name);
    var value := if key in env then Some(env[key]) else None;
    if required && (value.None? || value.value == "") then Err(InputMissing(name)) else Ok(value)
  }

  /** `if (process.env.GITHUB_OUTPUT)`: set and not empty. */
  predicate WritesToFile(env: map<string, string>)
  {
    "GITHUB_OUTPUT" in env && env["GITHUB_OUTPUT"] != ""
  }

  /** The text `setOutput` emits: `name=value`, newline-terminated when appended to the output file. */
  function OutputRecord(name: string, value: string, toFile: bool): string
  {
    name + "=" + value + (if toFile then "\n" else "")
  }

  /** A record splits back, at its first `=`, into the name and the value, whenever the name has no `=`. */
  lemma {:induction false} OutputRecordFields(name: string, value: string, toFile: bool)
    requires '=' !in name
    ensures var r := OutputRecord(name, value, toFile);
            var k := IndexOf(r, '=');
            k == |name| && r[..k] == name &&
            r[k + 1..] == value + (if toFile then "\n" else "")
  {
    var r := OutputRecord(name, value, toFile);
    assert r[..|name|] == name;
    assert r[|name|] == '=';
    assert '=' !in r[..|name|];
    var k := IndexOf(r, '=');
    assert k >= |name| by {
      assert forall i :: 0 <= i < |name| ==> r[..|name|][i] != '=';
    }
    assert r[|name| + 1..] == value + (if toFile then "\n" else "");
  }

  /** `isMajorBump.toString()`. */
  function BoolToString(b: bool): string
  {
    if b then "true" else "false"
  }

  /** The four records a successful run reports, in order. */
  function Records(r: Release, toFile: bool): seq<string>
  {
    [OutputRecord("new_tag", r.newTag, toFile),
     OutputRecord("new_tag_major", NatToString(r.major), toFile),
     OutputRecord("new_tag_minor", NatToString(r.minor), toFile),
     OutputRecord("is_major_bump", BoolToString(r.isMajorBump), toFile)]
  }

  /** The token is present: set and not empty. */
  predicate HasToken(env: map<string, string>)
  {
    InputKey("github_token") in env && env[InputKey("github_token")] != ""
  }

  /**
   * The whole bundled run. A missing token fails before any command is
   * issued; otherwise the script runs and stops at the first failing command.
   * Records are emitted only when every command succeeded.
   */
  method RunAction(env: map<string, string>, shell: Shell)
    returns (trace: seq<Command>, records: seq<string>, failure: Option<Failure>)
    ensures !HasToken(env) ==> trace == [] && records == [] && failure == Some(InputMissing("github_token"))
    ensures HasToken(env) ==> trace != [] && trace <= Commands(shell) && AllSucceed(shell, trace[..|trace| - 1])
    ensures HasToken(env) && failure.Some? ==>
              trace[|trace| - 1] !in shell.outputs && failure.value == CommandFailed(trace[|trace| - 1])
    ensures failure.None? <==> HasToken(env) && trace == Commands(shell) && AllSucceed(shell, trace)
    ensures failure.None? ==> records == Records(ReleaseOf(shell), WritesToFile(env))
    ensures failure.Some? ==> records == []
  {
    records := [];
    var token := GetInput(env, "github_token", true);
    if token.Err? {
      return [], [], Some(token.error);
    }
    var result;
    trace, result := TagVersion(shell);
    if result.Err? {
      assert !AllSucceed(shell, trace);
      return trace, [], Some(result.error);
    }
    var release := result.value;
    var toFile := WritesToFile(env);
    records := records + [OutputRecord("new_tag", release.newTag, toFile)];
    records := records + [OutputRecord("new_tag_major", NatToString(release.major), toFile)];
    records := records + [OutputRecord("new_tag_minor", NatToString(release.minor), toFile)];
    records := records + [OutputRecord("is_major_bump", BoolToString(release.isMajorBump), toFile)];
    failure := None;
  }
}
