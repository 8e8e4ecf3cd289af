/** The per-repository update procedure of the cruft manager, stated
    declaratively: the outcomes of the external commands are inputs
    (`RepoEnv`), `Stop` names the point at which the procedure ends, and for
    each stop `Outcome` gives the fields of the `UpdateResult` and
    `RunTrace` the commands that were issued. The step-by-step methods in
    module Manager are proved to agree with these definitions. */
module Steps {
  import opened Wrappers
  import opened Text
  import opened Registry

  /** What one external command reported: exit status and captured output. */
  datatype Proc = Proc(code: int, stdout: string, stderr: string)

  /** The `.cruft.json` of a working copy: absent, or a JSON object whose
      string-valued fields are kept. */
  type CruftJson = Option<map<string, string>>

  /** Truthiness of the loaded `.cruft.json`: present and not an empty object. */
  predicate Linked(j: CruftJson) {
    j.Some? && j.value != map[]
  }

  /** `cruft_info.get("commit", "unknown")`. */
  function RecordedCommit(j: CruftJson): string {
    if j.Some? && "commit" in j.value then j.value["commit"] else "unknown"
  }

  /** The commit read back after `cruft update`: set only when the file is there and non-empty. */
  function NewCommit(after: CruftJson): Option<string> {
    if Linked(after) then Some(RecordedCommit(after)) else None
  }

  /** Everything the outside world answers while one repository is processed. */
  datatype RepoEnv = RepoEnv(
    localPathExists: bool,     // whether the configured local path exists
    clone: Proc,               // git clone --depth=1
    cruftJson: CruftJson,      // .cruft.json of the working copy, before updating
    check: Proc,               // cruft check
    diff: Proc,                // cruft diff
    today: string,             // the date, formatted %Y%m%d, when the update starts
    update: Proc,              // cruft update --skip-apply-ask -y
    cruftJsonAfter: CruftJson, // .cruft.json after cruft update
    status: Proc,              // git status --porcelain
    push: Proc,                // git push -u origin <branch>
    pr: Proc)                  // gh pr create

  /** The arguments the pull-request body template is formatted with. */
  datatype PrBody = PrBody(
    template: string,
    templateName: string,
    oldCommit: string,
    newCommit: string,
    changes: string)

  /** The external commands the manager issues. */
  datatype Command =
    | GitClone(url: string)
    | CruftCheck
    | CruftDiff
    | GitCheckout(branch: string)
    | CruftUpdate
    | GitStatus
    | GitAddAll
    | GitCommit(message: CommitMessage)
    | GitPush(branch: string)
    | PrCreate(title: string, body: PrBody, base: string)

  /** Commands that change the working copy, the remote or the hosting side. */
  predicate Mutates(c: Command) {
    c.GitCheckout? || c.CruftUpdate? || c.GitAddAll? || c.GitCommit? || c.GitPush? || c.PrCreate?
  }

  /** The result record for one repository. */
  datatype UpdateResult = UpdateResult(
    repo: Repository,
    success: bool,
    needsUpdate: bool,
    oldCommit: Option<string>,
    newCommit: Option<string>,
    prUrl: Option<string>,
    error: Option<string>,
    changes: seq<string>)

  /** A fresh result: only `repo` and `success` given, every other field at its default. */
  function NewResult(repo: Repository, success: bool): UpdateResult {
    UpdateResult(repo, success, false, None, None, None, None, [])
  }

  const CloneError: string := "Failed to clone repository"
  const NotManagedError: string := "No .cruft.json found - not a cruft-managed repo"
  const DefaultPrBody: string := "Template update"
  const DefaultPrTitle: string := "chore: template update"
  const MaxChangeLines: nat := 50
  const MaxPrChangeLines: nat := 20

  /** Where the processing of one repository ends. */
  datatype Stop =
    | CloneFailed  // the repository could not be cloned
    | Unlinked     // no usable .cruft.json
    | UpToDate     // cruft check exited 0
    | Behind       // an update is available and is not applied (dry run or auto_update off)
    | UpdateFailed // cruft update exited non-zero
    | NoChanges    // the update left nothing for git status to report
    | PushFailed   // git push exited non-zero
    | PrFailed     // gh pr create exited non-zero
    | PrOpened     // gh pr create exited 0
  {
    /** The stops at which the result records a failure. */
    predicate Failed() {
      CloneFailed? || Unlinked? || UpdateFailed? || PushFailed?
    }

    /** The stops reached after cruft update succeeded. */
    predicate Updated() {
      NoChanges? || PushFailed? || PrFailed? || PrOpened?
    }

    /** The stops at which an update was found and not discarded. */
    predicate Pending() {
      Behind? || UpdateFailed? || PushFailed? || PrFailed? || PrOpened?
    }

    /** The stops at which `.cruft.json` had been read and cruft check run. */
    predicate Probed() {
      !(CloneFailed? || Unlinked?)
    }
  }

  function UpdateLines(diffOut: string): seq<string> {
    Take(Split(diffOut, '\n'), MaxChangeLines)
  }

  /** The change lines recorded from the output of cruft diff: the first 50
      of its lines, none at all when it printed nothing. */
  function DiffLines(diffOut: string): seq<string> {
    if diffOut == "" then [] else UpdateLines(diffOut)
  }

  /** At most 50 change lines are kept, none exactly when cruft diff printed
      nothing, and none holds a line break. */
  lemma DiffLinesBounds(diffOut: string)
    ensures |DiffLines(diffOut)| <= MaxChangeLines
    ensures diffOut == "" <==> DiffLines(diffOut) == []
    ensures forall l :: l in DiffLines(diffOut) ==> '\n' !in l
  {
    SplitSpec(diffOut, '\n');
  }

  /** The recorded lines are the beginning of the diff output, and all of it when it has at most 50 lines. */
  lemma DiffLinesArePrefix(diffOut: string)
    ensures Join(DiffLines(diffOut), "\n") <= diffOut
    ensures |Split(diffOut, '\n')| <= MaxChangeLines ==> Join(DiffLines(diffOut), "\n") == diffOut
  {
    JoinSplit(diffOut, '\n');
    JoinTakeIsPrefix(Split(diffOut, '\n'), MaxChangeLines, "\n");
  }

  /** Where `check_for_updates` ends. */
  function CheckStop(env: RepoEnv): (s: Stop)
    ensures s.Unlinked? || s.UpToDate? || s.Behind?
  {
    if !Linked(env.cruftJson) then Unlinked
    else if env.check.code != 0 then Behind
    else UpToDate
  }

  /** Where `apply_update` ends: the check's stop unless an update is
      available and automatic updates are on; then the first of cruft update,
      git status, git push and gh pr create to report a failure (or nothing
      to commit) decides. */
  function ApplyStop(repo: Repository, env: RepoEnv): Stop {
    var s := CheckStop(env);
    if !s.Behind? || !repo.autoUpdate then s
    else if env.update.code != 0 then UpdateFailed
    else if Strip(env.status.stdout) == "" then NoChanges
    else if env.push.code != 0 then PushFailed
    else if env.pr.code == 0 then PrOpened
    else PrFailed
  }

  /** A configured local path that exists is copied; anything else is cloned. */
  predicate UsesLocalCopy(repo: Repository, env: RepoEnv) {
    Present(repo.localPath) && env.localPathExists
  }

  /** A working copy was obtained. */
  predicate Obtained(repo: Repository, env: RepoEnv) {
    UsesLocalCopy(repo, env) || env.clone.code == 0
  }

  /** Where the batch driver's processing of one repository ends. */
  function RunStop(repo: Repository, env: RepoEnv, dryRun: bool): Stop {
    if !Obtained(repo, env) then CloneFailed
    else if dryRun then CheckStop(env)
    else ApplyStop(repo, env)
  }

  /** The error message recorded at each stop. */
  function ErrorAt(stop: Stop, env: RepoEnv): Option<string> {
    match stop
    case CloneFailed => Some(CloneError)
    case Unlinked => Some(NotManagedError)
    case UpdateFailed => Some("Cruft update failed: " + env.update.stderr)
    case PushFailed => Some("Failed to push branch: " + env.push.stderr)
    case PrFailed => Some("Failed to create PR: " + env.pr.stderr)
    case _ => None
  }

  /** The result recorded for `repo` when processing ends at `stop`. */
  function Outcome(repo: Repository, env: RepoEnv, stop: Stop): UpdateResult {
    UpdateResult(
      repo := repo,
      success := !stop.Failed(),
      needsUpdate := stop.Pending(),
      oldCommit := if stop.Probed() then Some(RecordedCommit(env.cruftJson)) else None,
      newCommit := if stop.Updated() then NewCommit(env.cruftJsonAfter) else None,
      prUrl := if stop.PrOpened? then Some(Strip(env.pr.stdout)) else None,
      error := ErrorAt(stop, env),
      changes := if stop.Pending() || stop.Updated() then DiffLines(env.diff.stdout) else [])
  }

  function CloneUrl(repo: Repository): string {
    "https://github.com/" + repo.github + ".git"
  }

  /** The update branch: the prefix and the date. */
  function Branch(repo: Repository, env: RepoEnv): string {
    repo.branchPrefix + "-" + env.today
  }

  /** `commit[:8]`, or "unknown" for a missing or empty commit. */
  function ShortCommit(c: Option<string>): string {
    if Present(c) then Take(c.value, 8) else "unknown"
  }

  /** The commit message, by the two shortened commits it names. */
  datatype CommitMessage = CommitMessage(oldShort: string, newShort: string) {
    function Text(): string {
      "chore(deps): update from cookiecutter template\n\nTemplate commit: "
      + oldShort + " \U{2192} " + newShort
      + "\n\n\U{1F916} Generated with cruft-manager\n"
    }
  }

  function MessageFor(oldCommit: Option<string>, newCommit: Option<string>): CommitMessage {
    CommitMessage(ShortCommit(oldCommit), ShortCommit(newCommit))
  }

  /** The body template (or its default) with the arguments it is formatted
      with; the change summary is the first 20 change lines, or "See diff". */
  function PrBodyFor(settings: Settings, repo: Repository, oldCommit: Option<string>,
                     newCommit: Option<string>, changes: seq<string>): PrBody {
    PrBody(
      settings.prBodyTemplate.GetOr(DefaultPrBody),
      repo.template,
      OrUnknown(oldCommit),
      OrUnknown(newCommit),
      if changes != [] then Join(Take(changes, MaxPrChangeLines), "\n") else "See diff")
  }

  function PrTitle(settings: Settings): string {
    settings.prTitleTemplate.GetOr(DefaultPrTitle)
  }

  /** The arguments the commands of the pipeline carry: the update branch,
      the commit message and the pull request's title and body. */
  datatype Plan = Plan(branch: string, message: CommitMessage, title: string, body: PrBody)

  /** The arguments as the manager computes them for `repo`: the commits are
      the one recorded before the update and the one read back after it. */
  function PlanFor(repo: Repository, env: RepoEnv, settings: Settings): Plan {
    var oldCommit := Some(RecordedCommit(env.cruftJson));
    var newCommit := NewCommit(env.cruftJsonAfter);
    Plan(Branch(repo, env), MessageFor(oldCommit, newCommit), PrTitle(settings),
         PrBodyFor(settings, repo, oldCommit, newCommit, DiffLines(env.diff.stdout)))
  }

  /** How many commands of the pipeline have run when processing ends at `stop`. */
  function Reached(stop: Stop): (n: nat)
    ensures n <= 9
  {
    match stop
    case CloneFailed => 0
    case Unlinked => 0
    case UpToDate => 1
    case Behind => 2
    case UpdateFailed => 4
    case NoChanges => 5
    case PushFailed => 8
    case PrFailed => 9
    case PrOpened => 9
  }

  /** The stop just before `stop` along the pipeline: the commands of
      `stop` are those of its predecessor followed by the ones run between
      them. */
  function Previous(stop: Stop): Stop
    requires Reached(stop) > 1
  {
    match stop
    case Behind => UpToDate
    case UpdateFailed => Behind
    case NoChanges => UpdateFailed
    case PushFailed => NoChanges
    case _ => PushFailed
  }

  /** The commands run in the working copy, in order, when processing ends
      at `stop`: those of the previous stop, then one more for each command
      run since. */
  function Issued(plan: Plan, stop: Stop): seq<Command>
    decreases Reached(stop)
  {
    match stop
    case CloneFailed => []
    case Unlinked => []
    case UpToDate => [CruftCheck]
    case Behind => Issued(plan, UpToDate) + [CruftDiff]
    case UpdateFailed => Issued(plan, Behind) + [GitCheckout(plan.branch)] + [CruftUpdate]
    case NoChanges => Issued(plan, UpdateFailed) + [GitStatus]
    case PushFailed =>
      Issued(plan, NoChanges) + [GitAddAll] + [GitCommit(plan.message)] + [GitPush(plan.branch)]
    case _ => Issued(plan, PushFailed) + [PrCreate(plan.title, plan.body, "main")]
  }

  /** The whole pipeline: every command, when every step goes ahead. */
  function Commands(plan: Plan): seq<Command> {
    Issued(plan, PrOpened)
  }

  /** Wherever processing ends, the commands run are the beginning of the
      pipeline: one run never skips a step or reorders two. */
  lemma IssuedIsPrefix(plan: Plan, stop: Stop)
    ensures |Issued(plan, stop)| == Reached(stop)
    ensures Issued(plan, stop) == Commands(plan)[..Reached(stop)]
  {
  }

  /** Every command of a run sits at its own place in the pipeline, before
      the place where the run stopped. */
  lemma {:induction false} IssuedSteps(plan: Plan, stop: Stop)
    ensures forall c :: c in Issued(plan, stop) ==> !c.GitClone? && StepIndex(c) < Reached(stop)
    decreases Reached(stop)
  {
    if Reached(stop) > 1 {
      IssuedSteps(plan, Previous(stop));
    }
  }

  /** The clone command issued before any work, unless a local copy is used. */
  function Acquire(repo: Repository, env: RepoEnv): seq<Command> {
    if UsesLocalCopy(repo, env) then [] else [GitClone(CloneUrl(repo))]
  }

  /** Every command issued for one repository by the batch driver, the
      commands carrying the arguments of `plan`. */
  function RunTrace(repo: Repository, env: RepoEnv, plan: Plan, stop: Stop): seq<Command> {
    Acquire(repo, env) + Issued(plan, stop)
  }

  /** `result` and `trace` are what the batch driver records and runs for
      `repo`: the outcome and the commands of the stop it reaches. */
  predicate Processed(repo: Repository, env: RepoEnv, settings: Settings, dryRun: bool,
                      result: UpdateResult, trace: seq<Command>) {
    var stop := RunStop(repo, env, dryRun);
    result == Outcome(repo, env, stop) && trace == RunTrace(repo, env, PlanFor(repo, env, settings), stop)
  }

  /** The position of a command in the pipeline; a clone comes before it. */
  function StepIndex(c: Command): nat {
    match c
    case GitClone(_) => 0
    case CruftCheck => 0
    case CruftDiff => 1
    case GitCheckout(_) => 2
    case CruftUpdate => 3
    case GitStatus => 4
    case GitAddAll => 5
    case GitCommit(_) => 6
    case GitPush(_) => 7
    case PrCreate(_, _, _) => 8
  }

  /** A trace holds at most one clone, first, and then only pipeline steps
      before the point where processing stopped: no later step is ever run. */
  lemma TraceStopsAtStop(repo: Repository, env: RepoEnv, plan: Plan, stop: Stop)
    ensures forall c :: c in RunTrace(repo, env, plan, stop) ==>
      c.GitClone? || StepIndex(c) < Reached(stop)
    ensures forall c :: c in RunTrace(repo, env, plan, stop) && c.GitClone? ==>
      !UsesLocalCopy(repo, env) && RunTrace(repo, env, plan, stop)[0] == c
    ensures forall k :: 1 <= k < |RunTrace(repo, env, plan, stop)| ==>
      !RunTrace(repo, env, plan, stop)[k].GitClone?
  {
    IssuedSteps(plan, stop);
  }

  /** Facts every result satisfies, whichever way its processing ended. */
  predicate Consistent(r: UpdateResult) {
    && (!r.success ==> Present(r.error))
    && (r.prUrl.Some? ==> r.success && r.needsUpdate && r.error.None?)
    && (r.oldCommit.None? ==> !r.success && !r.needsUpdate && r.changes == [])
    && (r.newCommit.Some? ==> r.oldCommit.Some?)
    && |r.changes| <= MaxChangeLines
  }

  // ---------------------------------------------------------------------------
  // Properties of check_for_updates

  /** Without a usable `.cruft.json` the check fails with a message, finds no
      update, and runs no command. */
  lemma CheckWithoutCruftJson(repo: Repository, env: RepoEnv, plan: Plan)
    requires !Linked(env.cruftJson)
    ensures var r := Outcome(repo, env, CheckStop(env));
      && !r.success && !r.needsUpdate && Present(r.error)
      && r.oldCommit.None? && r.changes == []
    ensures RunTrace(repo, env, plan, CheckStop(env)) == Acquire(repo, env)
  {
  }

  /** For a linked repository the check succeeds, records the commit (or
      "unknown"), reports an update exactly when cruft check exits non-zero,
      runs cruft diff only then, and keeps at most the first 50 diff lines. */
  lemma CheckLinked(repo: Repository, env: RepoEnv, plan: Plan)
    requires Linked(env.cruftJson)
    ensures var r := Outcome(repo, env, CheckStop(env));
      && r.success && r.error.None? && r.prUrl.None? && r.newCommit.None?
      && r.oldCommit == Some(if "commit" in env.cruftJson.value then env.cruftJson.value["commit"] else "unknown")
      && (r.needsUpdate <==> env.check.code != 0)
      && |r.changes| <= MaxChangeLines
      && (env.diff.stdout == "" ==> r.changes == [])
      && (r.needsUpdate ==> Join(r.changes, "\n") <= env.diff.stdout)
      && (!r.needsUpdate ==> r.changes == [])
    ensures RunTrace(repo, env, plan, CheckStop(env))
         == Acquire(repo, env) + (if env.check.code != 0 then [CruftCheck, CruftDiff] else [CruftCheck])
  {
    DiffLinesArePrefix(env.diff.stdout);
  }

  // ---------------------------------------------------------------------------
  // Properties of apply_update

  /** With nothing to update, or with automatic updates off, applying is the
      check alone: same result, same commands, nothing checked out or updated. */
  lemma ApplySkips(repo: Repository, env: RepoEnv, plan: Plan)
    requires !Outcome(repo, env, CheckStop(env)).needsUpdate || !repo.autoUpdate
    ensures ApplyStop(repo, env) == CheckStop(env)
    ensures forall c :: c in RunTrace(repo, env, plan, ApplyStop(repo, env)) ==> !Mutates(c)
  {
    TraceStopsAtStop(repo, env, plan, ApplyStop(repo, env));
  }

  /** A failed cruft update fails the repository with the tool's error output
      and nothing is committed, pushed or proposed. */
  lemma ApplyUpdateFailure(repo: Repository, env: RepoEnv)
    requires CheckStop(env).Behind? && repo.autoUpdate && env.update.code != 0
    ensures ApplyStop(repo, env) == UpdateFailed
    ensures var r := Outcome(repo, env, ApplyStop(repo, env));
      && !r.success && r.needsUpdate && r.error == Some("Cruft update failed: " + env.update.stderr)
      && r.prUrl.None? && r.newCommit.None?
  {
  }

  /** When git status reports only whitespace after the update, the
      repository counts as needing no update and nothing is committed. */
  lemma ApplyNoChanges(repo: Repository, env: RepoEnv)
    requires CheckStop(env).Behind? && repo.autoUpdate && env.update.code == 0
    requires AllSpace(env.status.stdout)
    ensures ApplyStop(repo, env) == NoChanges
    ensures var r := Outcome(repo, env, ApplyStop(repo, env));
      && r.success && !r.needsUpdate && r.error.None? && r.prUrl.None?
      && r.newCommit == NewCommit(env.cruftJsonAfter)
  {
    StripSpec(env.status.stdout);
  }

  /** When cruft update fails, nothing is inspected, committed, pushed or proposed. */
  lemma NothingAfterUpdateFailure(repo: Repository, env: RepoEnv, plan: Plan)
    requires CheckStop(env).Behind? && repo.autoUpdate && env.update.code != 0
    ensures forall c :: c in RunTrace(repo, env, plan, ApplyStop(repo, env)) ==>
      !(c.GitStatus? || c.GitAddAll? || c.GitCommit? || c.GitPush? || c.PrCreate?)
  {
    assert ApplyStop(repo, env) == UpdateFailed;
    TraceStopsAtStop(repo, env, plan, UpdateFailed);
  }

  /** When git status after a successful update shows only whitespace,
      nothing is committed, pushed or proposed. */
  lemma NothingAfterNoChanges(repo: Repository, env: RepoEnv, plan: Plan)
    requires CheckStop(env).Behind? && repo.autoUpdate && env.update.code == 0
    requires AllSpace(env.status.stdout)
    ensures forall c :: c in RunTrace(repo, env, plan, ApplyStop(repo, env)) ==>
      !(c.GitAddAll? || c.GitCommit? || c.GitPush? || c.PrCreate?)
  {
    assert ApplyStop(repo, env) == NoChanges by {
      ApplyNoChanges(repo, env);
    }
    TraceStopsAtStop(repo, env, plan, NoChanges);
  }

  /** When the push of a committed update fails, no pull request is attempted. */
  lemma NothingAfterPushFailure(repo: Repository, env: RepoEnv, plan: Plan)
    requires CheckStop(env).Behind? && repo.autoUpdate && env.update.code == 0
    requires !AllSpace(env.status.stdout) && env.push.code != 0
    ensures ApplyStop(repo, env) == PushFailed
    ensures forall c :: c in RunTrace(repo, env, plan, ApplyStop(repo, env)) ==> !c.PrCreate?
  {
    assert ApplyStop(repo, env) == PushFailed by {
      StripSpec(env.status.stdout);
    }
    TraceStopsAtStop(repo, env, plan, PushFailed);
  }

  /** A pull-request URL is recorded exactly when the update went through,
      the push succeeded and gh pr create exited 0. */
  lemma PrUrlOnlyAfterPush(repo: Repository, env: RepoEnv)
    ensures Outcome(repo, env, ApplyStop(repo, env)).prUrl.Some? <==>
      && CheckStop(env).Behind? && repo.autoUpdate && env.update.code == 0
      && !AllSpace(env.status.stdout) && env.push.code == 0 && env.pr.code == 0
  {
    StripSpec(env.status.stdout);
  }

  /** gh pr create is only ever run after a successful push. */
  lemma PrCreateOnlyAfterPush(repo: Repository, env: RepoEnv, plan: Plan, dryRun: bool)
    ensures forall c :: c in RunTrace(repo, env, plan, RunStop(repo, env, dryRun)) && c.PrCreate? ==>
      env.push.code == 0 && !dryRun
  {
    var stop := RunStop(repo, env, dryRun);
    TraceStopsAtStop(repo, env, plan, stop);
    if stop.PrOpened? || stop.PrFailed? {
      assert !dryRun && ApplyStop(repo, env) == stop;
    } else {
      assert Reached(stop) <= 8;
    }
  }

  /** A failed push fails the repository and no pull request is attempted. */
  lemma ApplyPushFailure(repo: Repository, env: RepoEnv)
    requires ApplyStop(repo, env).PushFailed?
    ensures var r := Outcome(repo, env, ApplyStop(repo, env));
      && !r.success && r.error == Some("Failed to push branch: " + env.push.stderr) && r.prUrl.None?
  {
  }

  /** A failed gh pr create records its error but leaves the repository successful. */
  lemma ApplyPrFailure(repo: Repository, env: RepoEnv)
    requires ApplyStop(repo, env).PrFailed?
    ensures var r := Outcome(repo, env, ApplyStop(repo, env));
      && r.success && r.needsUpdate && r.prUrl.None?
      && r.error == Some("Failed to create PR: " + env.pr.stderr)
  {
  }

  // ---------------------------------------------------------------------------
  // Properties of the batch driver, per repository

  /** A clone failure yields the clone error and no check is run. */
  lemma RunCloneFailure(repo: Repository, env: RepoEnv, plan: Plan, dryRun: bool)
    requires !UsesLocalCopy(repo, env) && env.clone.code != 0
    ensures Outcome(repo, env, RunStop(repo, env, dryRun))
         == NewResult(repo, false).(error := Some(CloneError))
    ensures RunTrace(repo, env, plan, RunStop(repo, env, dryRun)) == [GitClone(CloneUrl(repo))]
  {
  }

  /** A dry run issues no command that changes anything. */
  lemma DryRunNeverMutates(repo: Repository, env: RepoEnv, plan: Plan)
    ensures forall c :: c in RunTrace(repo, env, plan, RunStop(repo, env, true)) ==> !Mutates(c)
  {
    TraceStopsAtStop(repo, env, plan, RunStop(repo, env, true));
  }

  /** Every result the batch driver can produce is internally consistent. */
  lemma OutcomeConsistent(repo: Repository, env: RepoEnv, stop: Stop)
    ensures Consistent(Outcome(repo, env, stop))
    ensures Outcome(repo, env, stop).repo == repo
  {
  }
}
