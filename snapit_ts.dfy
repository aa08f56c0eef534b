/// index.ts, the action's script. It checks its two tokens and the event payload, and
/// when the comment is one of the configured commands it reacts, checks the commenter's
/// permission and the pull request's origin, checks the pull request out, prepares the
/// workspace, versions, builds and publishes snapshot releases, and reports the
/// published tags in a comment.
module SnapitTs {
  import opened JsString
  import opened Effects
  import opened NewTags

  datatype CommentPayload = CommentPayload(id: int, body: string, userLogin: string)
  datatype RepositoryPayload = RepositoryPayload(ownerLogin: string, name: string, fullName: string)
  datatype IssuePayload = IssuePayload(number: nat)
  datatype Payload = Payload(
    comment: Option<CommentPayload>,
    repository: Option<RepositoryPayload>,
    issue: Option<IssuePayload>)

  /** Everything the outside world supplies to one run. A token that is unset reads
      as "", which the script treats the same way. The lockfiles are looked up when the
      script starts, before the pull request is checked out, so the install follows the
      workspace as it was then, not the pull request's lockfiles. */
  datatype World = World(
    githubToken: string,      // process.env.GITHUB_TOKEN
    npmToken: string,         // process.env.NPM_TOKEN
    payload: Payload,         // github.context.payload
    commentCommand: string,   // core.getInput('comment_command')
    buildScript: string,      // core.getInput('build_script')
    yarnLock: bool,           // existsSync('yarn.lock'), before the checkout
    pnpmLock: bool,           // existsSync('pnpm-lock.yaml'), before the checkout
    permissionOf: string -> string,    // the collaborator permission level of each username
    headRepoOf: nat -> Option<string>, // full name of each pull request's head repository; None when null
    currentBranch: string,    // what `git branch --show-current` prints
    publishOutput: string,    // what `changeset publish` prints
    fault: Option<Fault>)     // the outward call the outside world rejects, if any

  const GithubTokenMissing := "Please provide the GITHUB_TOKEN to the snapit GitHub action"
  const NpmTokenMissing := "Please provide the NPM_TOKEN to the snapit GitHub action"
  const PayloadIncomplete := "No comment, repository, or issue found in the payload"
  const PermissionDenied := "Only users with write permission to the repository can run /snapit"
  const ForkUnsupported := "`/snapit` is not supported on pull requests from forked repositories."
  /** The TypeError that reading `full_name` of a null head repository raises. */
  const NullHeadRepo := "Cannot read properties of null (reading 'full_name')"
  const NoNewTags := "Changeset publish did not create new tags."
  const ReleaseBranch := "changeset-release/main"

  predicate PayloadComplete(p: Payload) {
    p.comment.Some? && p.repository.Some? && p.repository.value.ownerLogin != "" && p.issue.Some?
  }

  /** The comment is one of the comma-separated commands, compared verbatim. */
  predicate Triggered(commentCommand: string, body: string) {
    body in Split(commentCommand, ",")
  }

  predicate Privileged(permission: string) {
    permission == "write" || permission == "admin"
  }

  function Checkout(issue: nat): Effect {
    Exec("gh", ["pr", "checkout", Decimal(issue)])
  }

  const BranchQuery := Exec("git", ["branch", "--show-current"])
  const ChangesetReset := Exec("git", ["checkout", "origin/main", "--", ".changeset"])
  const YarnInstall := Exec("yarn", ["install", "--frozen-lockfile"])
  const PnpmInstall := Exec("pnpm", ["install", "--frozen-lockfile"])
  const NpmInstall := Exec("npm", ["ci"])

  /** The dependency install, chosen by the lockfiles present. */
  function Install(yarnLock: bool, pnpmLock: bool): Effect {
    if yarnLock then YarnInstall else if pnpmLock then PnpmInstall else NpmInstall
  }

  /** The shell command that writes the registry credential file. */
  function NpmrcWrite(token: string): Effect {
    Exec("bash", ["-c", "echo \"//registry.npmjs.org/:_authToken=" + token + "\" > \"$HOME/.npmrc\""])
  }

  const VersionSnapshot := Exec("npx", ["changeset", "version", "--snapshot", "snapshot"])
  const PublishSnapshot := Exec("npx", ["changeset", "publish", "--no-git-tags", "--snapshot", "--tag", "snapshot"])

  /** `buildScript.split('&&').map((cmd) => cmd.trim())`. */
  function Segments(script: string): seq<string> {
    var parts := Split(script, "&&");
    seq(|parts|, k requires 0 <= k < |parts| => Trim(parts[k]))
  }

  /** `const [cmdName, ...cmdArgs] = cmd.split(/\s+/)`, run as `exec(cmdName, cmdArgs)`. */
  function CommandOf(segment: string): Effect {
    var fields := WsSplit(segment);
    Exec(fields[0], fields[1..])
  }

  /** The commands the build step runs, one per segment, in order. */
  function BuildExecs(script: string): seq<Effect> {
    if script == "" then [] else Commands(Segments(script))
  }

  function Commands(segments: seq<string>): seq<Effect> {
    seq(|segments|, k requires 0 <= k < |segments| => CommandOf(segments[k]))
  }

  const InstallCommands := ["pnpm add --workspace-root", "yarn add", "npm install"]

  function CodeBlock(line: string): string {
    "```sh\n" + line + "\n```"
  }

  /** The three install snippets for one tag. */
  function TagSection(tag: string): string {
    Join(seq(|InstallCommands|, k requires 0 <= k < |InstallCommands| => CodeBlock(InstallCommands[k] + " " + tag)), "\n")
  }

  /** The greeting that opens the success comment, up to the word that agrees in number. */
  function Greeting(login: string): string {
    "\U{1FAF0}\U{2728} **Thanks @" + login + "! " + "Your snapshot"
  }

  /** The rest of the opening, worded for one snapshot or for several. */
  function Wording(multiple: bool): string {
    (if multiple then "s have" else " has") + " been published to npm.**\n\n"
    + "Test the snapshot" + (if multiple then "s" else "") + " by updating your `package.json` "
    + "with the newly published version" + (if multiple then "s" else "") + ":\n"
  }

  /** The opening of the success comment. */
  function Intro(login: string, multiple: bool): string {
    Greeting(login) + Wording(multiple)
  }

  /** The body of the success comment: the opening, then one section per tag. */
  function SuccessComment(login: string, tags: seq<string>): string {
    Intro(login, |tags| > 1) + Join(seq(|tags|, k requires 0 <= k < |tags| => TagSection(tags[k])), "\n---\n")
  }

  /** What the script uses of a complete payload. */
  datatype Context = Context(target: Target, commentId: int, issue: nat, login: string, fullName: string)

  function ContextOf(p: Payload): Context
    requires PayloadComplete(p)
  {
    var repository := p.repository.value;
    Context(Target(repository.ownerLogin, repository.name), p.comment.value.id,
            p.issue.value.number, p.comment.value.userLogin, repository.fullName)
  }

  /** The run when every outward call succeeds: its calls in order and how it ends. */
  function Plan(w: World): Trace {
    if w.githubToken == "" then Trace([], Failed(GithubTokenMissing))
    else if w.npmToken == "" then Trace([], Failed(NpmTokenMissing))
    else if !PayloadComplete(w.payload) then Trace([], Failed(PayloadIncomplete))
    else if !Triggered(w.commentCommand, w.payload.comment.value.body) then Trace([], Success)
    else
      var ctx := ContextOf(w.payload);
      Then([React(ctx.target, ctx.commentId, Eyes)], Vetting(w, ctx))
  }

  /** After the eyes reaction: the permission check on the commenter's login, the origin
      check on the pull request numbered like the issue, then the release. */
  function Vetting(w: World, ctx: Context): Trace {
    if !Privileged(w.permissionOf(ctx.login)) then
      Trace([Comment(ctx.target, ctx.issue, PermissionDenied)], Failed(PermissionDenied))
    else if w.headRepoOf(ctx.issue).None? then Trace([], Failed(NullHeadRepo))
    else if ctx.fullName != w.headRepoOf(ctx.issue).value then Trace([], Failed(ForkUnsupported))
    else Then(Releasing(w, ctx.issue), Report(w, ctx))
  }

  /** The commands from the checkout to `changeset publish`. */
  function Releasing(w: World, issue: nat): seq<Effect> {
    CheckoutCalls(w, issue) + SetupCalls(w) + BuildExecs(w.buildScript) + [PublishSnapshot]
  }

  /** Checking the pull request out, and resetting the changesets on the release branch. */
  function CheckoutCalls(w: World, issue: nat): seq<Effect> {
    [Checkout(issue), BranchQuery] + (if Trim(w.currentBranch) == ReleaseBranch then [ChangesetReset] else [])
  }

  /** Installing dependencies, writing the credential file and versioning the snapshot. */
  function SetupCalls(w: World): seq<Effect> {
    [Install(w.yarnLock, w.pnpmLock), NpmrcWrite(w.npmToken), VersionSnapshot]
  }

  /** After the publish: failure when it announced no tag, otherwise the comment and the
      rocket reaction. */
  function Report(w: World, ctx: Context): Trace {
    var tags := ScanTags(w.publishOutput);
    if tags == [] then Trace([], Failed(NoNewTags))
    else
      Trace([Comment(ctx.target, ctx.issue, SuccessComment(ctx.login, tags)),
             React(ctx.target, ctx.commentId, Rocket)], Success)
  }

  /** The checkout step, call by call. */
  method CheckOut(w: World, issue: nat, before: seq<Effect>) returns (after: seq<Effect>, rejected: bool)
    requires SpareBefore(w.fault, |before|)
    ensures Ran(before, CheckoutCalls(w, issue), w.fault, after, rejected)
  {
    ghost var plan := CheckoutCalls(w, issue);
    RanNothing(before, w.fault);
    after, rejected := Call(before, Checkout(issue), w.fault);
    RanStep(before, [], plan, before, Checkout(issue), w.fault, after, rejected);
    if rejected {
      return;
    }
    var mid := after;
    after, rejected := Call(mid, BranchQuery, w.fault);
    RanStep(before, [Checkout(issue)], plan, mid, BranchQuery, w.fault, after, rejected);
    if rejected {
      return;
    }
    if Trim(w.currentBranch) == ReleaseBranch {
      mid := after;
      after, rejected := Call(mid, ChangesetReset, w.fault);
      RanStep(before, [Checkout(issue), BranchQuery], plan, mid, ChangesetReset, w.fault, after, rejected);
    }
  }

  /** The install, credential and version steps, call by call. */
  method SetUp(w: World, before: seq<Effect>) returns (after: seq<Effect>, rejected: bool)
    requires SpareBefore(w.fault, |before|)
    ensures Ran(before, SetupCalls(w), w.fault, after, rejected)
  {
    ghost var plan := SetupCalls(w);
    RanNothing(before, w.fault);
    if w.yarnLock {
      after, rejected := Call(before, YarnInstall, w.fault);
    } else if w.pnpmLock {
      after, rejected := Call(before, PnpmInstall, w.fault);
    } else {
      after, rejected := Call(before, NpmInstall, w.fault);
    }
    RanStep(before, [], plan, before, plan[0], w.fault, after, rejected);
    if rejected {
      return;
    }
    var mid := after;
    after, rejected := Call(mid, NpmrcWrite(w.npmToken), w.fault);
    RanStep(before, plan[..1], plan, mid, plan[1], w.fault, after, rejected);
    if rejected {
      return;
    }
    mid := after;
    after, rejected := Call(mid, VersionSnapshot, w.fault);
    RanStep(before, plan[..2], plan, mid, plan[2], w.fault, after, rejected);
  }

  /** The build step, when a build script is set. */
  method RunBuild(buildScript: string, fault: Option<Fault>, before: seq<Effect>) returns (after: seq<Effect>, rejected: bool)
    requires SpareBefore(fault, |before|)
    ensures Ran(before, BuildExecs(buildScript), fault, after, rejected)
  {
    if buildScript != "" {
      var commands := Segments(buildScript);
      after, rejected := RunCommands(commands, fault, before);
    } else {
      RanNothing(before, fault);
      after, rejected := before, false;
    }
  }

  /** Each trimmed `&&`-separated command, split at whitespace and run one by one. */
  method RunCommands(commands: seq<string>, fault: Option<Fault>, before: seq<Effect>) returns (after: seq<Effect>, rejected: bool)
    requires SpareBefore(fault, |before|)
    ensures Ran(before, Commands(commands), fault, after, rejected)
  {
    after, rejected := before, false;
    ghost var planned := Commands(commands);
    for j := 0 to |commands|
      invariant Ran(before, planned[..j], fault, after, false)
    {
      var fields := WsSplit(commands[j]);
      var mid := after;
      after, rejected := Call(mid, Exec(fields[0], fields[1..]), fault);
      RanNext(before, planned, j, mid, fault, after, rejected);
      if rejected {
        RanPrefix(before, planned[..j + 1], planned, fault, after);
        return;
      }
    }
    assert planned[..|commands|] == planned;
  }

  /** From the checkout to the publish, stopping at the first rejected command. */
  method Release(w: World, issue: nat, before: seq<Effect>) returns (after: seq<Effect>, rejected: bool)
    requires SpareBefore(w.fault, |before|)
    ensures Ran(before, Releasing(w, issue), w.fault, after, rejected)
  {
    ghost var checkout := CheckoutCalls(w, issue);
    ghost var setup := checkout + SetupCalls(w);
    ghost var built := setup + BuildExecs(w.buildScript);
    ghost var whole := Releasing(w, issue);
    Prefixes(checkout, SetupCalls(w), BuildExecs(w.buildScript), [PublishSnapshot]);
    after, rejected := CheckOut(w, issue, before);
    if rejected {
      RanPrefix(before, checkout, whole, w.fault, after);
      return;
    }
    var mid := after;
    after, rejected := SetUp(w, mid);
    RanThen(before, checkout, mid, SetupCalls(w), w.fault, after, rejected);
    if rejected {
      RanPrefix(before, setup, whole, w.fault, after);
      return;
    }
    mid := after;
    after, rejected := RunBuild(w.buildScript, w.fault, mid);
    RanThen(before, setup, mid, BuildExecs(w.buildScript), w.fault, after, rejected);
    if rejected {
      RanPrefix(before, built, whole, w.fault, after);
      return;
    }
    mid := after;
    after, rejected := Call(mid, PublishSnapshot, w.fault);
    RanThen(before, built, mid, [PublishSnapshot], w.fault, after, rejected);
  }

  /** The tags the publish announced, and the report on them. */
  method ReportBack(w: World, ctx: Context, before: seq<Effect>) returns (after: seq<Effect>, outcome: Outcome)
    requires SpareBefore(w.fault, |before|)
    ensures Performed(before, Report(w, ctx), w.fault, after, outcome)
  {
    var newTags := ScanTags(w.publishOutput);
    if |newTags| == 0 {
      PerformedEnd(before, Failed(NoNewTags), w.fault);
      return before, Failed(NoNewTags);
    }
    ghost var plan := Report(w, ctx).effects;
    var rejected;
    RanNothing(before, w.fault);
    after, rejected := Call(before, Comment(ctx.target, ctx.issue, SuccessComment(ctx.login, newTags)), w.fault);
    RanStep(before, [], plan, before, plan[0], w.fault, after, rejected);
    if rejected {
      return after, Failed(w.fault.value.message);
    }
    var mid := after;
    after, rejected := Call(mid, React(ctx.target, ctx.commentId, Rocket), w.fault);
    RanStep(before, plan[..1], plan, mid, plan[1], w.fault, after, rejected);
    assert plan[..2] == plan;
    if rejected {
      return after, Failed(w.fault.value.message);
    }
    outcome := Success;
  }

  /** The permission and origin checks, then the release and its report. */
  method Vet(w: World, ctx: Context, before: seq<Effect>) returns (after: seq<Effect>, outcome: Outcome)
    requires SpareBefore(w.fault, |before|)
    ensures Performed(before, Vetting(w, ctx), w.fault, after, outcome)
  {
    if !Privileged(w.permissionOf(ctx.login)) {
      var rejected;
      after, rejected := Call(before, Comment(ctx.target, ctx.issue, PermissionDenied), w.fault);
      if rejected {
        return after, Failed(w.fault.value.message);
      }
      return after, Failed(PermissionDenied);
    }
    if w.headRepoOf(ctx.issue).None? {
      PerformedEnd(before, Failed(NullHeadRepo), w.fault);
      return before, Failed(NullHeadRepo);
    }
    if ctx.fullName != w.headRepoOf(ctx.issue).value {
      PerformedEnd(before, Failed(ForkUnsupported), w.fault);
      return before, Failed(ForkUnsupported);
    }
    var mid, rejected := Release(w, ctx.issue, before);
    if rejected {
      PerformedCut(before, Releasing(w, ctx.issue), Report(w, ctx), w.fault, mid);
      return mid, Failed(w.fault.value.message);
    }
    after, outcome := ReportBack(w, ctx, mid);
    PerformedThen(before, Releasing(w, ctx.issue), mid, Report(w, ctx), w.fault, after, outcome);
  }

  /** The script, call by call: each awaited call may be rejected, which ends the run
      with the rejection's message. */
  method RunScript(w: World) returns (effects: seq<Effect>, outcome: Outcome)
    ensures Trace(effects, outcome) == Abort(Plan(w), w.fault)
  {
    if w.githubToken == "" {
      return [], Failed(GithubTokenMissing);
    }
    if w.npmToken == "" {
      return [], Failed(NpmTokenMissing);
    }
    if !PayloadComplete(w.payload) {
      return [], Failed(PayloadIncomplete);
    }
    var ctx := ContextOf(w.payload);
    var commentCommands := Split(w.commentCommand, ",");
    if w.payload.comment.value.body !in commentCommands {
      return [], Success;
    }
    var eyes := React(ctx.target, ctx.commentId, Eyes);
    var rejected;
    effects, rejected := Call([], eyes, w.fault);
    if rejected {
      PerformedCut([], [eyes], Vetting(w, ctx), w.fault, effects);
      PerformedAbort(Plan(w), w.fault, effects, Failed(w.fault.value.message));
      return effects, Failed(w.fault.value.message);
    }
    var mid := effects;
    effects, outcome := Vet(w, ctx, mid);
    PerformedThen([], [eyes], mid, Vetting(w, ctx), w.fault, effects, outcome);
    PerformedAbort(Plan(w), w.fault, effects, outcome);
  }
}
