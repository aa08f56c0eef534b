# snapit, modelled in Dafny

snapit is a GitHub action that publishes snapshot releases of a repository's
packages to npm from a pull-request comment. `index.ts` works through these steps:

1. It reacts with 👀 to the triggering comment.
2. It checks that the commenter may write to the repository.
3. It checks that the pull request is not from a fork.
4. It checks the pull request out and installs its dependencies.
5. It writes the npm credential.
6. It versions the packages as snapshots with changesets.
7. It runs an optional build script.
8. It publishes.
9. It reads the published tags out of the publish output.
10. It answers with a comment that shows how to install each tag, then with a 🚀 reaction.

`index.js` takes a shorter path:

1. It reacts with 👀.
2. It checks the workflow actor's permission.
3. It checks the pull request's origin.
4. It versions the packages and runs the `publish-packages` script.
5. It reads the tags and answers with the comment and the 🚀 reaction.

It does not check out, install, write the credential or run a build script.

The repository has two entry points. `index.ts` is the current one, triggered by
configurable comment commands. `index.js` is the older one, triggered by
`/boopboop` in the pull request's description. Both are modelled.

## How the model is built

- **Effects** (`effects.dfy`). A run is described by what it does to the outside world:
  - the outward calls it makes, in order:
    - a reaction on a comment;
    - a new comment on an issue;
    - a command with its arguments;
  - how it ends: `Success`, or `Failed(message)` from `core.setFailed`.

  The outside world may reject one call, the `Fault`: a command that exits
  non-zero, or an API request that fails. That call's error message then ends the
  run. `Abort(plan, fault)` is the run that actually happens: the fault-free run,
  cut at the rejected call.
- **Plans** (`Plan` in `snapit_ts.dfy` and `snapit_js.dfy`). Each entry point has a
  function that gives its fault-free run from a `World`. The `World` holds everything
  the environment supplies:
  - the payload;
  - the inputs and tokens;
  - the lockfiles found;
  - the permission lookup, as a function from username to permission level;
  - the pull-request lookup, as a function from pull number to head repository;
  - the current branch;
  - the publish output;
  - the fault.

  The plan is built from stage functions (`Vetting`, `Releasing`, `Report`, …) that
  follow the source's branches.
- **Execution** (`SnapitTs.RunScript`, `SnapitJs.Run`). The script itself is modelled
  as imperative methods. They make the calls one at a time, each of which may be
  rejected, and stop at the first rejection. The build commands are run by a loop.
  Each stage method is proved against its stage function. The top-level method is
  proved to produce exactly `Abort(Plan(w), w.fault)`.
- **JavaScript built-ins** (`jsstring.dfy`). These are modelled on their ECMAScript
  definitions:
  - `split` with a string separator;
  - `trim`;
  - `split(/\s+/)`;
  - `indexOf`/`includes`;
  - `join`;
  - `Number.prototype.toString`.

  Whitespace is the full ECMAScript WhiteSpace and LineTerminator set.
- **Tag extraction** (`newtags.dfy`). The global pattern `/New tag:\s+([^\s\n]+)/g`
  is modelled as a left-to-right scanner. Each match's first group is a tag.
- **Properties** (`snapit_ts_props.dfy`, `snapit_js_props.dfy`). These are the gates,
  the order of the release commands, the install choice, the build-script parsing and
  the shape of the success comment. They are stated about the plans, and where it
  matters about `Abort`, so that they also hold when a call is rejected.

## Model

| member | source | states |
|---|---|---|
| JsString.IndexOf | index.js:19 | `indexOf` from position 0; `IndexFrom` states its meaning and `SnapitJsProps.MentionedAnywhere` the `includes` test built on it |
| JsString.IndexFrom | index.js:19 | the result is the leftmost occurrence of the pattern at or after the start position; `None` exactly when the pattern occurs nowhere from there |
| JsString.Join | index.ts:166-175 | `Array.prototype.join`: the pieces with the separator between neighbours; inverted by `Split` in `SplitThenJoin` and `JoinThenSplit` |
| JsString.Split | index.ts:38 | `split` with a non-empty string separator always yields at least one piece |
| JsString.SplitThenJoin | index.ts:123 | joining the pieces of a split with the separator gives back the original string |
| JsString.SplitPieces | index.ts:123 | every piece but the last ends at the leftmost occurrence of the separator, and the last piece holds none |
| JsString.SplitCons | index.ts:123 | a string that starts with a separator-free piece and a separator splits off that piece first |
| JsString.JoinThenSplit | index.ts:123 | splitting the join of pieces that hold no separator gives back the pieces |
| JsString.SplitFields | index.ts:38-39 | a string is one of the elements of `s.split(c)` exactly when it is a maximal stretch of `s` between occurrences of `c`, so the trigger compares verbatim |
| JsString.SplitLines | index.js:88-90 | lines without a line break are recovered by splitting their `\n` join |
| JsString.Trim | index.ts:123 | the trimmed string has no whitespace at either end and sits inside the input with only whitespace around it |
| JsString.TrimPadded | index.ts:93 | trimming removes exactly the whitespace around a string that has none at its ends |
| JsString.WsSplit | index.ts:125 | `split(/\s+/)` yields at least one field and no field holds whitespace |
| JsString.WsSplitJoin | index.ts:125 | splitting non-empty whitespace-free tokens joined by single blanks gives back the tokens |
| JsString.WsSplitGap | index.ts:125 | a whitespace-free token followed by any non-empty run of whitespace is split off as the first field |
| JsString.LineBare | index.ts:123-125 | a command line of whitespace-free tokens separated by whitespace runs is non-empty and has no whitespace at either end |
| JsString.LineSplit | index.ts:125 | splitting such a command line at `/\s+/` gives back exactly its tokens, whatever its whitespace runs are made of |
| JsString.Decimal | index.ts:79 | `toString` of an issue number is a non-empty run of digits without a leading zero |
| JsString.DecimalRoundTrip | index.ts:79 | reading the numeral back gives the issue number |
| Effects.Abort | index.ts:184-186 | the actual run is a prefix of the fault-free run; it is the whole run when no call is rejected, and otherwise ends at the rejected call with its message |
| Effects.Call | index.ts:40-44 | an awaited call is recorded after the calls already made, and it is rejected exactly when the fault names its position |
| Effects.PerformedAbort | index.ts:184-186 | a run performed stage by stage from the start is exactly the fault-free run cut by `Abort` |
| NewTags.MatchFront | index.ts:139 | a match found at the front has the marker, at least one whitespace character, then a non-empty whitespace-free tag ending at whitespace or the end |
| NewTags.MatchFrontComplete | index.ts:139 | every match of the pattern at the front is the one found, with the greedy whitespace run and the longest tag |
| NewTags.ScanTags | index.ts:139-141 | every extracted tag is non-empty and holds no whitespace |
| NewTags.ScanSound | index.ts:139-141 | for any output, every extracted tag is the group of a match of the pattern at some position of the output |
| NewTags.NoMarkerNoTags | index.ts:139-141 | output without `New tag:` yields no tag |
| NewTags.ScanSkip | index.ts:139-141 | text without an `N` in front of the output contributes no tag |
| NewTags.ScanMatch | index.ts:139-141 | a match contributes its tag, and the search resumes right after the match |
| NewTags.ScanLine | index.ts:139-141 | a line announcing a tag yields that tag, and scanning resumes after the line |
| NewTags.ScanOutput | index.ts:139-141 | output made of announcing lines yields exactly their tags, in output order |
| SnapitTs.Plan | index.ts:9-186 | the fault-free run of the script, branch by branch; what it promises is stated by the `SnapitTsProps` lemmas and `RunScript` is proved to perform it |
| SnapitTs.Vetting | index.ts:47-182 | the permission and fork checks, then the release and the report; see `PermissionGate`, `ForkGate` and `VettingCleared` |
| SnapitTs.Releasing | index.ts:77-137 | the commands from the checkout to `changeset publish`; see `Layout` and `ReleasingExecs` |
| SnapitTs.CheckoutCalls | index.ts:77-99 | the checkout, the branch query and the conditional reset; see `ResetIffReleaseBranch` |
| SnapitTs.SetupCalls | index.ts:101-118 | the install, the credential write and `changeset version`; see `InstallChoice` |
| SnapitTs.Report | index.ts:139-182 | failure without tags, else the success comment and the rocket; see `ReportStage` |
| SnapitTs.Segments | index.ts:123 | the trimmed `&&`-separated parts of the build script; see `ScriptSplit` |
| SnapitTs.CommandOf | index.ts:125-126 | a segment's first whitespace-separated field as the tool, the rest as arguments; see `SegmentParts` |
| SnapitTs.BuildExecs | index.ts:121-128 | one command per segment, none for an empty script; see `BuildScriptRoundTrip` and `BuildScriptEmpty` |
| SnapitTs.TagSection | index.ts:167-173 | a tag's three install snippets joined by line breaks; see `SectionLines` |
| SnapitTs.SuccessComment | index.ts:158-175 | the opening, then the tag sections joined by `---` lines; see `CommentBody`, `PluralWording` and `TagLinesShape` |
| SnapitTs.CheckOut | index.ts:77-99 | the checkout, the branch query and, on the release branch, the changeset reset are attempted in order, stopping at a rejection |
| SnapitTs.SetUp | index.ts:101-118 | the install, the credential write and `changeset version` are attempted in order, stopping at a rejection |
| SnapitTs.RunBuild | index.ts:121-128 | the build step attempts exactly the commands of the build script, in order |
| SnapitTs.RunCommands | index.ts:124-127 | the loop attempts each segment's command in turn and stops at the first rejection |
| SnapitTs.Release | index.ts:77-137 | every command from the checkout to `changeset publish` is attempted in order, stopping at a rejection |
| SnapitTs.ReportBack | index.ts:139-182 | the report is performed as planned: failure without tags, otherwise the comment then the rocket reaction |
| SnapitTs.Vet | index.ts:47-182 | the permission and fork checks, the release and the report are performed as planned |
| SnapitTs.RunScript | index.ts:8-186 | the script's effects and outcome are exactly the fault-free run cut at the first rejected call |
| SnapitTsProps.TokenChecks | index.ts:9-17 | a missing `GITHUB_TOKEN` fails with its message, with nothing done; with it present, a missing `NPM_TOKEN` fails likewise |
| SnapitTsProps.IncompletePayload | index.ts:24-31 | with both tokens, a payload lacking comment, repository, owner login or issue fails with its message, with nothing done, and this happens only then |
| SnapitTsProps.TriggerFilter | index.ts:38-44 | the run does anything at all exactly when the comment is a command; otherwise it ends quietly and successfully, and the first call is the eyes reaction |
| SnapitTsProps.TriggerVerbatim | index.ts:38-39 | the comment triggers exactly when it equals a comma-delimited stretch of the command input, with no trimming |
| SnapitTsProps.PermissionGate | index.ts:47-63 | when the permission looked up for the commenter's login (`payload.comment.user.login`) is neither write nor admin, the run is exactly the eyes reaction and one comment with the message, failing with that message; only then |
| SnapitTsProps.ForkGate | index.ts:66-75 | when the pull request numbered like the issue has a null head repository, or one other than the payload's repository, the run fails right after the eyes reaction, with no comment and no command |
| SnapitTsProps.ExecOnlyWhenCleared | index.ts:54-128 | no command runs unless every check passed, even when a call is rejected |
| SnapitTsProps.PlanCleared | index.ts:38-44 | once cleared, the run is the eyes reaction followed by the vetting stage |
| SnapitTsProps.VettingCleared | index.ts:54-137 | a privileged actor on a same-repository pull request gets the release and then the report |
| SnapitTsProps.ClearedRun | index.ts:40-182 | once cleared, the run is the eyes reaction, the release commands and the report, ending as the report does |
| SnapitTsProps.Layout | index.ts:77-137 | once cleared, the calls are eyes, the checkout calls, the install, the credential write, `changeset version`, the build commands, `changeset publish`, then the report |
| SnapitTsProps.ResetIffReleaseBranch | index.ts:77-99 | the checkout comes first and the branch query second; the changeset reset happens exactly when the trimmed branch is `changeset-release/main` |
| SnapitTsProps.InstallChoice | index.ts:101-118 | exactly one install runs, right after the checkout calls: yarn when `yarn.lock` exists, else pnpm when `pnpm-lock.yaml` exists, else `npm ci`; `changeset version` follows two calls later |
| SnapitTsProps.ReleasingExecs | index.ts:77-137 | every call of the release is a command, and the last is `changeset publish` |
| SnapitTsProps.ReportStage | index.ts:139-182 | no tag means failure with no call; tags mean the success comment, then the rocket reaction, and success |
| SnapitTsProps.NoTagsFails | index.ts:143-145 | a publish without tags fails with its message; the eyes reaction is the first call, every later call is a command and the publish is the last, so there is no comment and no rocket |
| SnapitTsProps.SuccessReport | index.ts:147-182 | with tags the run succeeds; the eyes reaction is the first call, every call after it up to the success comment is a command, the success comment is second to last and the rocket reaction last, so the success comment is the only comment |
| SnapitTsProps.SegmentParts | index.ts:123-125 | a segment written as whitespace, the name, each argument after its own whitespace run, and whitespace trims to its command line and runs as the name with the arguments |
| SnapitTsProps.ScriptSplit | index.ts:123 | a script made of segments joined by `&&` splits back into exactly those segments |
| SnapitTsProps.BuildScriptRoundTrip | index.ts:121-128 | a script made of segments runs one command per segment, in order, each its name with its arguments, whatever whitespace separates them |
| SnapitTsProps.BuildScriptEmpty | index.ts:121-122 | the build step runs nothing exactly when the build script is empty |
| SnapitTsProps.CodeBlockLines | index.ts:171 | an install snippet is its three lines: the opening fence, the command, the closing fence |
| SnapitTsProps.SectionLines | index.ts:167-173 | a tag's section is its nine lines (pnpm, yarn, npm snippets) joined by line breaks |
| SnapitTsProps.SectionsLines | index.ts:166-175 | the sections joined by `\n---\n` are all their lines joined by line breaks, with a `---` line between tags |
| SnapitTsProps.CommentBody | index.ts:157-175 | the success comment is the opening worded for the number of tags, followed by every tag's lines |
| SnapitTsProps.PluralWording | index.ts:147-165 | the opening says "snapshots have" exactly when more than one tag was published |
| SnapitTsProps.WordingStart | index.ts:159-165 | the agreeing part of the opening starts with "s have" exactly in the plural |
| SnapitTsProps.TagLinesShape | index.ts:166-175 | the comment's snippet part has nine lines per tag in tag order (pnpm, yarn, npm), with `---` between tags |
| SnapitTsProps.SnippetLines | index.ts:166-175 | read back line by line, the snippet part gives exactly its lines |
| SnapitJs.Plan | index.js:5-103 | the fault-free run of `run()`, branch by branch; what it promises is stated by the `SnapitJsProps` lemmas and `Run` is proved to perform it |
| SnapitJs.Vetting | index.js:27-98 | the permission, head and fork checks, then the two commands and the report; see `PermissionGate`, `HeadRepoGate` and `Layout` |
| SnapitJs.Report | index.js:73-98 | nothing without tags, else the success comment and the rocket; see `NoTagsQuiet` and `SuccessReport` |
| SnapitJs.Snippet | index.js:89 | a tag's `npm install` snippet; see `SnippetJoin` |
| SnapitJs.SuccessComment | index.js:84-90 | the opening, then the snippets joined by line breaks; see `CommentBody`, `PluralWording` and `TagLinesShape` |
| SnapitJs.ReportBack | index.js:73-98 | the report is performed as planned: nothing without tags, otherwise the comment then the rocket reaction |
| SnapitJs.Vet | index.js:27-98 | the permission, head and fork checks, the two commands and the report are performed as planned |
| SnapitJs.Run | index.js:5-103 | the run's effects and outcome are exactly the fault-free run cut at the first rejected call |
| SnapitJsProps.SilentUnlessUsable | index.js:11-17 | a payload without pull request, description, comment or repository ends successfully with nothing done |
| SnapitJsProps.TriggerFilter | index.js:19-24 | with a usable payload the run does anything exactly when the description mentions `/boopboop`; the first call is then the eyes reaction |
| SnapitJsProps.MentionedAnywhere | index.js:19 | the description mentions the command exactly when it occurs at some position |
| SnapitJsProps.PermissionGate | index.js:27-43 | when the permission looked up for the workflow actor (`github.context.actor`) is neither write nor admin, the run is exactly the eyes reaction and one comment with the message, and fails with it; only then |
| SnapitJsProps.HeadRepoGate | index.js:46-64 | for the pull request numbered like the issue, a null head repository ends successfully right after the eyes reaction; a fork gets exactly one comment with the fork message and fails with it; each only then |
| SnapitJsProps.ExecOnlyWhenCleared | index.js:34-67 | no command runs unless every check passed, even when a call is rejected |
| SnapitJsProps.FailureCauses | index.js:34-64 | without a rejected call the run fails exactly at the permission or fork check, with that check's message |
| SnapitJsProps.Layout | index.js:66-98 | once cleared, the calls are eyes, `changeset version`, the publish script, then the report, and the run succeeds |
| SnapitJsProps.NoTagsQuiet | index.js:73-98 | a publish without tags ends successfully with no comment and no rocket |
| SnapitJsProps.SuccessReport | index.js:77-97 | with tags the run is eyes, the two commands, the success comment, then the rocket reaction, and it succeeds |
| SnapitJsProps.SnippetJoin | index.js:89 | a tag's snippet is its three lines: the fence, `npm install` of the tag, the fence |
| SnapitJsProps.CommentBody | index.js:83-90 | the success comment is the opening worded for the number of tags, followed by every snippet's lines |
| SnapitJsProps.PluralWording | index.js:78-87 | the opening says "snapshots have" exactly when more than one tag was published |
| SnapitJsProps.WordingStart | index.js:85-87 | the agreeing part of the opening starts with "s have" exactly in the plural |
| SnapitJsProps.TagLinesShape | index.js:88-90 | the snippet part has three lines per tag, in tag order, with nothing between tags |
| SnapitJsProps.SnippetLines | index.js:88-90 | read back line by line, the snippet part gives exactly its lines |

## Left out

- The real Octokit, `@actions/exec`, `existsSync` and `core.getInput` calls are network, file-system and subprocess I/O. Their answers are fields of `World`. Only reactions, comments and commands are recorded as effects.
- `core.getInput`, `existsSync`, the permission lookup and `pulls.get` leave nothing in the run's effects.
- The two lookups are functions of their argument. The permission lookup takes the username. `pulls.get` takes the pull number. The repository both lookups address is not modelled, because it is always the run's own.
- The permission lookup and `pulls.get` always answer in the model. Only reactions, comments and commands can be rejected.
- The regular expression engine is replaced by a scanner for the one pattern. Its whitespace is the ECMAScript `\s` set, taken over code points where JavaScript works on UTF-16 code units.
- The `bash -c` credential write (index.ts:109-116) is shell I/O. It is recorded as a command value and its effect on `~/.npmrc` is not modelled.
- Async suspension is left out. Each call is awaited before the next, so the order of the calls is all the model keeps.
- `github.getOctokit` rejecting a missing or malformed token is not modelled.
- `@actions/exec` parses its command-line argument for quotes and backslashes before running it, and this parsing is not modelled.
  - index.js passes whole command lines (index.js:67, index.js:69-71), and the model records them as written.
  - index.ts passes each build-script segment's first field as that argument (index.ts:126). So a tool name that is quoted or holds a backslash, such as `"./build.sh"`, runs as the parsed name, not the `Exec` name the model records.
- A build-script segment that is blank after trimming becomes a command with an empty name. `@actions/exec` always rejects an empty command line, so such a script always ends the run at that call. The model expresses this only through the fault, and its fault-free plan for such a script never happens.
- A null pull-request description in index.js is represented as the empty string. Both are falsy at index.js:13.
- In index.ts, reading `full_name` of a null head repository throws a `TypeError`. The model takes V8's message for it (`SnapitTs.NullHeadRepo`).
- index.test.ts imports the built bundle and asserts nothing, so it is not part of this model.
- Neither entry point has any of these features, so none is modelled:
  - a branch mode;
  - a global install;
  - an included-packages filter;
  - a manifest scan;
  - a custom tag prefix and suffix;
  - a configurable release branch;
  - wrapping a failing build command's name into the error.
- On a pull request from a fork, index.ts fails without commenting (index.ts:71-75). index.js posts a comment first (index.js:53-64). The model follows each file.
- NewTags.ScanOutput: states complete tag extraction only for output made of announcing lines whose leading text has no `N`. For output of any other shape, `ScanTags` and `ScanSound` state only that each tag is whitespace-free and is the group of a real match.
- SnapitTsProps.BuildScriptRoundTrip: states the parsing only for scripts built from well-formed segments. In such a segment the padding is whitespace, the words are non-empty, whitespace-free and `&`-free, and each word boundary is any non-empty whitespace run. Segments that are blank or hold an `&` are covered only by `BuildScriptEmpty` and the definitions.
- SnapitTsProps.SnippetLines: states the line round trip for the snippet part of the comment only. The opening holds line breaks of its own.
- SnapitJsProps.SnippetLines: states the line round trip for the snippet part of the comment only, for the same reason.
