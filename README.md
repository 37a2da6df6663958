# float-version-semantic, modelled in Dafny

The action computes and pushes the next `MAJOR.MINOR` tag of a repository. It
lists the repository's tags and keeps the highest pair among the tags that match
`^(\d+)\.(\d+)$`. It then decides whether this is a major bump: the marker
`#major` must appear in the HEAD message (when no tag exists) or in the messages
after the highest tag. It computes the next pair from a four-case table, writes
it as `<major>.<minor>`, then creates and pushes that tag and reports four
`name=value` outputs.

The logic exists twice in the repository: `index.js` and the bundled
`dist/index.js`. The bundle has the same core (lines 86-155 there match lines
8-77 of `index.js`). It also has its own `getInput` and `setOutput` and a
top-level `try`/`catch`. The shared core is modelled once. Rows below cite
`index.js` for it and `dist/index.js` for the bundle-only parts. The two
`parseInt` calls differ only in the explicit radix 10. On a run of ASCII digits
that gives the same value.

Modules, one file each:

- `Wrappers` (`wrappers.dfy`): `Option` and `Result`.
- `Text` (`text.dfy`): the JavaScript string built-ins used. These are `trim`,
  `split("\n")`, `includes`, `toUpperCase`, `parseInt` on digit runs and
  number-to-string.
- `Versions` (`versions.dfy`): the tag pattern, `ParseTag` and `FormatTag`.
- `Scanning` (`scanning.dfy`): the tag list, and the scan loop as the method
  `ScanTags`. The method is proved equal to the fold `Scan`, and the properties
  of `Scan` are proved as lemmas.
- `Bump` (`bump.dfy`): the `#major` decision and the next-version table.
- `Tagger` (`tagger.dfy`): the script from `git fetch` to `git push`. Each
  `git` call goes through an abstract `Shell`. A `Shell` maps each command that
  succeeds to its standard output. A command it does not map fails, as
  `execSync` throws on a non-zero exit. Methods return the trace of commands
  they issued.
- `Action` (`action.dfy`): the bundle's `getInput`, its `setOutput` record and
  the top-level run.
- `Scenarios` (`scenarios.dfy`): whole runs on small repositories.

The model keeps the source's zero-padding quirk. The pair is carried, not the
tag text, so a tag `01.2` is read as `(1, 2)`. The range queried afterwards is
`1.2..HEAD`, which is not one of the listed tags
(`Scenarios.ZeroPaddedTagRange`). When no ref is named `1.2`, `git log` fails
on that range and the run ends there (`Scenarios.ZeroPaddedRunFails`).

The search includes the `#`, so `nonmajorfix` does not trigger a bump. It is
unanchored, so `#majority` does (`Bump.MarkerIsUnanchored`).

## Model

| member | source | states |
|---|---|---|
| `Text.TrimStartSuffix` | index.js:10 | what `trim` drops at the front is whitespace, and the rest is a suffix starting with non-whitespace |
| `Text.TrimEndPrefix` | index.js:10 | what `trim` drops at the back is whitespace, and the rest is a prefix ending with non-whitespace |
| `Text.TrimIsSlice` | index.js:10 | `trim(s)` is a slice of `s` with only whitespace outside it, and its end characters are not whitespace |
| `Text.JoinSplit` | index.js:11 | joining the pieces of `split("\n")` with line feeds gives back the text |
| `Text.SplitJoin` | index.js:11 | splitting a join of line-feed-free pieces gives back the pieces |
| `Text.SplitLines` | index.js:11 | `split("\n")` yields at least one piece and no piece holds a line feed |
| `Text.ContainsIff` | index.js:36 | `includes` holds exactly when the needle occurs at some position |
| `Text.TrimKeepsContains` | index.js:35-36 | trimming the HEAD message neither hides nor creates an occurrence of a needle that starts and ends with non-whitespace |
| `Text.NatToString` | index.js:63 | the decimal rendering is a non-empty run of digits, with no leading zero except for 0 itself |
| `Text.ParseNatToString` | index.js:63 | `parseInt` of a rendered number gives the number back |
| `Text.LeadingZero` | index.js:22-23 | a leading zero does not change what `parseInt` reads |
| `Text.IndexOf` | index.js:18 | the first occurrence of a character, or the length when there is none |
| `Text.ToUpper` | dist/index.js:65 | upper-casing keeps the length, leaves no ASCII lower-case letter, turns each lower-case letter into a capital and keeps every other character |
| `Text.ToUpperIdempotent` | dist/index.js:65 | upper-casing an upper-cased name changes nothing |
| `Versions.GreaterIsStrictOrder` | index.js:25 | the update test is a strict total order on pairs, and its negation is lexicographic at-most |
| `Versions.ParseTag` | index.js:18-23 | a tag that parses has its dot at its first dot and digit runs on both sides |
| `Versions.ParseTagIff` | index.js:18-23 | a tag parses exactly when it matches `^(\d+)\.(\d+)$`, and then to the `parseInt` values of the two groups |
| `Versions.ParseFormat` | index.js:63 | a formatted pair matches the tag pattern and parses back to the same pair |
| `Versions.FormatInjective` | index.js:63 | distinct pairs are formatted as distinct tags |
| `Versions.ZeroPaddedTag` | index.js:22-23 | `01.2` is read as `(1, 2)`, which is written back as `1.2` |
| `Versions.NonConformingTags` | index.js:18-19 | `v3.0`, `1.2.3`, `abc` and `1.` are refused by the pattern |
| `Scanning.TagListLines` | index.js:10-11 | an empty trimmed listing gives no tags; otherwise the tags are the line-feed-free lines of the trimmed listing |
| `Scanning.ScanTags` | index.js:14-29 | the loop leaves `(latestMajor, latestMinor, foundTag)` equal to the fold of one step per tag over the list |
| `Scanning.ScanFound` | index.js:16-20 | `foundTag` holds exactly when some tag matches the pattern; otherwise the pair stays `(0, 0)` |
| `Scanning.ScanUpperBound` | index.js:14-29 | every matching tag's pair is lexicographically at most the result |
| `Scanning.ScanAttained` | index.js:14-29 | when a tag was found, the result is the pair of one of the listed tags |
| `Scanning.ScanIsMaximum` | index.js:14-29 | when a tag was found, the result is the unique pair that some tag has and that bounds all tags |
| `Scanning.ScanDeterminedByPairs` | index.js:25-28 | two lists whose matching tags have the same pairs scan to the same result |
| `Scanning.ScanOrderIrrelevant` | index.js:17 | any reordering of the tag list scans to the same result |
| `Scanning.ScanIgnoresNonConforming` | index.js:19 | inserting a non-matching tag anywhere in the list changes nothing |
| `Scanning.ScanExample` | index.js:14-29 | the list `1.2, 1.10, 2.0, v3.0, abc` scans to `(2, 0)` with a tag found |
| `Bump.IsMajorBumpIff` | index.js:32-46 | the decision is exactly whether the inspected message text contains `#major`, whether or not it is trimmed |
| `Bump.MarkerIsUnanchored` | index.js:43 | the marker also matches inside a longer word such as `#majority` |
| `Bump.NextVersion` | index.js:49-62 | the next pair is never `(0, 0)`; its minor is 0 exactly on a major bump; with a tag found it is strictly above the highest pair, on the same major or the next one, and it is the least such pair |
| `Bump.NextAboveAllTags` | index.js:49-63 | the next pair is above every matching tag, so the new tag's name is not one of the listed tags |
| `Bump.NextVersionTable` | index.js:49-62 | the four corners of the table: `(0,1)`, `(1,0)`, `(3,8)` and `(4,0)` |
| `Tagger.Exec` | index.js:8 | a command is appended to the trace and succeeds with its output exactly when the shell answers it; otherwise it fails with that command |
| `Tagger.Inspect` | index.js:8-63 | fetch, list, one message query, then the release computed from the listed tags and the queried messages; it stops at the first failing command |
| `Tagger.Publish` | index.js:65-77 | the identity, remote, tag and push commands, in order, stopping at the first failing one |
| `Tagger.TagVersion` | index.js:8-77 | the issued commands are a prefix of the full script; every command but the last succeeded; a failure is the last command's; success means the whole script ran and reports the computed release |
| `Tagger.ScriptTags` | index.js:76-77 | the only `git tag <name>` in the script is the seventh command and the only push is the eighth, both of the same tag |
| `Tagger.CreatedTagIsPushedTag` | index.js:76-77 | a run creates and pushes exactly the reported tag, which parses back to the reported pair |
| `Tagger.NewTagIsFresh` | index.js:76 | the new pair is above every listed version tag, and the new tag is none of the listed tags |
| `Tagger.ReportedBump` | index.js:32-46 | the reported bump is whether the queried text contains `#major`, and it holds exactly when the new minor is 0 |
| `Action.GetInput` | dist/index.js:64-70 | a required input that is unset or empty fails naming the input; otherwise the value of `INPUT_<NAME>` is returned unchanged, or none when unset |
| `Action.TokenInputKey` | dist/index.js:84 | the token is read from `INPUT_GITHUB_TOKEN` |
| `Action.OutputRecordFields` | dist/index.js:73-80 | a record splits at its first `=` into the name and the value, with a trailing newline exactly in the file case |
| `Action.RunAction` | dist/index.js:82-164 | a missing token fails before any command is issued; otherwise the script runs; the four records are emitted only when every command succeeded and carry the computed release |
| `Scenarios.NoHashNoMarker` | index.js:43 | text without `#` never holds the marker |
| `Scenarios.ExampleTagList` | index.js:10-11 | the listing `0.1\n0.2\n1.0\n` becomes three tags |
| `Scenarios.ExampleScan` | index.js:14-29 | of `0.1`, `0.2` and `1.0` the highest is `1.0` |
| `Scenarios.ExistingTagsMinorBump` | index.js:10-63 | tags `0.1, 0.2, 1.0` with no `#major` in the messages after `1.0` query `1.0..HEAD` and give tag `1.1`, not a major bump |
| `Scenarios.ExampleHeadMessage` | index.js:35-36 | the trimmed HEAD message `fix: bug #major` holds the marker |
| `Scenarios.FirstReleaseMajorBump` | index.js:32-63 | no tags and HEAD message `fix: bug #major` give tag `1.0`, a major bump |
| `Scenarios.FirstReleaseMinor` | index.js:32-63 | no tags and no `#major` in the HEAD message give tag `0.1` |
| `Scenarios.ZeroPaddedTagRange` | index.js:18-41 | a lone tag `01.2` is read as `(1, 2)`, so the range queried is `1.2..HEAD`, named by no listed tag |
| `Scenarios.ZeroPaddedRunFails` | index.js:40-41 | with the lone tag `01.2` and no ref `1.2`, the run fails, and once fetch and listing succeed it fails at the `1.2..HEAD` query |

## Left out

- The `git` processes themselves (`execSync`). Each command is a constructor of `Tagger.Command`. Its result is whatever the abstract `Shell` answers. What `git` does to the repository is not modelled.
- `SetRemoteUrl` does not carry its URL. The token and `GITHUB_REPOSITORY` are only used to build that URL, and the model does not build it.
- `@actions/core` is a library whose source is not part of this model. This covers `index.js`'s `core.getInput`, `core.setOutput`, `core.info` and `core.setFailed` (index.js:1, 6, 75, 79-84). The bundle's own `getInput` and `setOutput` are modelled.
- File and console output: `fs.appendFileSync`, `console.log`, `console.error` and `process.exit`. Only the record text that `setOutput` produces is modelled. A write that fails part-way through the four records is not modelled.
- Error message texts. A failure carries the failing command or the missing input's name. The texts are not modelled: `execSync`'s `Command failed: …` and `Input required and not supplied: github_token`.
- The webpack/ncc bootstrap and module cache (dist/index.js:1-58, 166-168).
- Text.DigitsValue: does not model JavaScript number precision. `parseInt` of a digit run above 2^53 rounds, and `${n}` of a value of 1e21 or more prints an exponent. The model uses unbounded naturals.
- Text.NatToString: does not model the exponent form of large numbers, for the same reason.
- Text.ToUpper: upper-cases ASCII letters only, where JavaScript applies full Unicode case mapping. Its one call site passes `github_token`, where the two agree.
- Strings are sequences of Unicode scalar values, not UTF-16 code units. The decoding of `execSync` output bytes into a string is not modelled.
