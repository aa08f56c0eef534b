/// index.js, the older entry point. When the pull request's description mentions
/// `/boopboop` it reacts, checks the actor's permission and the pull request's origin,
/// versions and publishes snapshot releases, and reports the published tags in a comment.
module SnapitJs {
  import opened JsString
  import opened Effects
  import opened NewTags

  /** A pull request whose description is null is given here with body "". */
  datatype PullRequestPayload = PullRequestPayload(body: string)
  datatype CommentPayload = CommentPayload(id: int)
  datatype RepositoryPayload = RepositoryPayload(fullName: string)
  datatype Payload = Payload(
    pullRequest: Option<PullRequestPayload>,
    comment: Option<CommentPayload>,
    repository: Option<RepositoryPayload>)

  /** Everything the outside world supplies to one run. */
  datatype World = World(
    repo: Target,             // github.context.repo
    actor: string,            // github.context.actor
    issueNumber: nat,         // github.context.issue.number
    payload: Payload,         // github.context.payload
    permissionOf: string -> string,    // the collaborator permission level of each username
    headRepoOf: nat -> Option<string>, // full name of each pull request's head repository; None when null
    publishOutput: string,    // what the publish script prints
    fault: Option<Fault>)     // the outward call the outside world rejects, if any

  const Command := "/boopboop"
  const PermissionDenied := "Only users with write permission to the repository can run /snapit"
  const ForkUnsupported := "`/snapit` is not supported on pull requests from forked repositories."

  /** Each command is handed over as one command line, without separate arguments. */
  const VersionSnapshot := Exec("npx changeset version --snapshot snapshot", [])
  const PublishPackages := Exec("npm run publish-packages -- --no-git-tags --snapshot --tag snapshot", [])

  /** The payload holds a pull request with a non-empty description, a comment and a repository. */
  predicate PayloadUsable(p: Payload) {
    p.pullRequest.Some? && p.pullRequest.value.body != "" && p.comment.Some? && p.repository.Some?
  }

  /** `body.includes('/boopboop')`. */
  predicate Mentioned(body: string) {
    IndexOf(body, Command).Some?
  }

  predicate Privileged(permission: string) {
    permission == "write" || permission == "admin"
  }

  /** The greeting that opens the success comment, up to the word that agrees in number. */
  function Greeting(actor: string): string {
    "\U{2728} **Thanks @" + actor + "! " + "Your snapshot"
  }

  /** The rest of the opening, worded for one snapshot or for several. */
  function Wording(multiple: bool): string {
    (if multiple then "s have" else " has") + " been published to npm.**\n\n"
    + "Test the snapshot" + (if multiple then "s" else "") + " by updating your `package.json` "
    + "with the newly published version" + (if multiple then "s" else "") + ":\n"
  }

  /** The opening of the success comment. */
  function Intro(actor: string, multiple: bool): string {
    Greeting(actor) + Wording(multiple)
  }

  /** The install snippet for one tag. */
  function Snippet(tag: string): string {
    "```sh\n" + "npm install " + tag + "\n" + "```"
  }

  /** The body of the success comment: the opening, then one snippet per tag. */
  function SuccessComment(actor: string, tags: seq<string>): string {
    Intro(actor, |tags| > 1) + Join(seq(|tags|, k requires 0 <= k < |tags| => Snippet(tags[k])), "\n")
  }

  /** The run when every outward call succeeds: its calls in order and how it ends. */
  function Plan(w: World): Trace {
    if !PayloadUsable(w.payload) then Trace([], Success)
    else if !Mentioned(w.payload.pullRequest.value.body) then Trace([], Success)
    else Then([React(w.repo, w.payload.comment.value.id, Eyes)], Vetting(w))
  }

  /** After the eyes reaction: the permission check on the workflow's actor, the origin
      check on the pull request numbered like the issue, then the release. */
  function Vetting(w: World): Trace
    requires PayloadUsable(w.payload)
  {
    if !Privileged(w.permissionOf(w.actor)) then
      Trace([Comment(w.repo, w.issueNumber, PermissionDenied)], Failed(PermissionDenied))
    else if w.headRepoOf(w.issueNumber).None? then Trace([], Success)
    else if w.payload.repository.value.fullName != w.headRepoOf(w.issueNumber).value then
      Trace([Comment(w.repo, w.issueNumber, ForkUnsupported)], Failed(ForkUnsupported))
    else Then([VersionSnapshot, PublishPackages], Report(w))
  }

  /** After the publish: nothing more when it announced no tag, otherwise the comment and
      the rocket reaction. */
  function Report(w: World): Trace
    requires PayloadUsable(w.payload)
  {
    var tags := ScanTags(w.publishOutput);
    if tags == [] then Trace([], Success)
    else
      Trace([Comment(w.repo, w.issueNumber, SuccessComment(w.actor, tags)),
             React(w.repo, w.payload.comment.value.id, Rocket)], Success)
  }

  /** The tags the publish announced, and the report on them. */
  method ReportBack(w: World, before: seq<Effect>) returns (after: seq<Effect>, outcome: Outcome)
    requires PayloadUsable(w.payload) && SpareBefore(w.fault, |before|)
    ensures Performed(before, Report(w), w.fault, after, outcome)
  {
    var newTags := ScanTags(w.publishOutput);
    if |newTags| == 0 {
      PerformedEnd(before, Success, w.fault);
      return before, Success;
    }
    ghost var plan := Report(w).effects;
    var rejected;
    RanNothing(before, w.fault);
    after, rejected := Call(before, Comment(w.repo, w.issueNumber, SuccessComment(w.actor, newTags)), w.fault);
    RanStep(before, [], plan, before, plan[0], w.fault, after, rejected);
    if rejected {
      return after, Failed(w.fault.value.message);
    }
    var mid := after;
    after, rejected := Call(mid, React(w.repo, w.payload.comment.value.id, Rocket), w.fault);
    RanStep(before, plan[..1], plan, mid, plan[1], w.fault, after, rejected);
    assert plan[..2] == plan;
    if rejected {
      return after, Failed(w.fault.value.message);
    }
    outcome := Success;
  }

  /** The permission and origin checks, then the version and publish commands and the report. */
  method Vet(w: World, before: seq<Effect>) returns (after: seq<Effect>, outcome: Outcome)
    requires PayloadUsable(w.payload) && SpareBefore(w.fault, |before|)
    ensures Performed(before, Vetting(w), w.fault, after, outcome)
  {
    var rejected;
    if !Privileged(w.permissionOf(w.actor)) {
      after, rejected := Call(before, Comment(w.repo, w.issueNumber, PermissionDenied), w.fault);
      if rejected {
        return after, Failed(w.fault.value.message);
      }
      return after, Failed(PermissionDenied);
    }
    if w.headRepoOf(w.issueNumber).None? {
      PerformedEnd(before, Success, w.fault);
      return before, Success;
    }
    if w.payload.repository.value.fullName != w.headRepoOf(w.issueNumber).value {
      after, rejected := Call(before, Comment(w.repo, w.issueNumber, ForkUnsupported), w.fault);
      if rejected {
        return after, Failed(w.fault.value.message);
      }
      return after, Failed(ForkUnsupported);
    }
    ghost var calls := [VersionSnapshot, PublishPackages];
    RanNothing(before, w.fault);
    var mid;
    mid, rejected := Call(before, VersionSnapshot, w.fault);
    RanStep(before, [], calls, before, VersionSnapshot, w.fault, mid, rejected);
    if rejected {
      PerformedCut(before, calls, Report(w), w.fault, mid);
      return mid, Failed(w.fault.value.message);
    }
    var published;
    published, rejected := Call(mid, PublishPackages, w.fault);
    RanStep(before, [VersionSnapshot], calls, mid, PublishPackages, w.fault, published, rejected);
    if rejected {
      PerformedCut(before, calls, Report(w), w.fault, published);
      return published, Failed(w.fault.value.message);
    }
    after, outcome := ReportBack(w, published);
    PerformedThen(before, calls, published, Report(w), w.fault, after, outcome);
  }

  /** `run()`, call by call: each awaited call may be rejected, which ends the run with the
      rejection's message. */
  method Run(w: World) returns (effects: seq<Effect>, outcome: Outcome)
    ensures Trace(effects, outcome) == Abort(Plan(w), w.fault)
  {
    if !PayloadUsable(w.payload) {
      return [], Success;
    }
    if !Mentioned(w.payload.pullRequest.value.body) {
      return [], Success;
    }
    var eyes := React(w.repo, w.payload.comment.value.id, Eyes);
    var rejected;
    effects, rejected := Call([], eyes, w.fault);
    if rejected {
      PerformedCut([], [eyes], Vetting(w), w.fault, effects);
      PerformedAbort(Plan(w), w.fault, effects, Failed(w.fault.value.message));
      return effects, Failed(w.fault.value.message);
    }
    var mid := effects;
    effects, outcome := Vet(w, mid);
    PerformedThen([], [eyes], mid, Vetting(w), w.fault, effects, outcome);
    PerformedAbort(Plan(w), w.fault, effects, outcome);
  }
}
