/** The cruft manager: the parsed registry and the operations that check,
    apply and report template updates, written step by step as the manager
    performs them. Each command outcome comes from the `RepoEnv` of the
    repository; each method is proved to agree with the declarative
    definitions of module Steps and module Report. */
module Manager {
  import opened Wrappers
  import opened Text
  import opened Registry
  import opened Steps
  import opened Report

  class CruftManager {
    const settings: Settings
    const repositories: seq<Repository>

    /** Loads the registry: keeps its settings and parses its repositories. */
    constructor (config: Config)
      ensures settings == config.settings
      ensures |repositories| == |Entries(config)|
      ensures forall i :: 0 <= i < |repositories| ==>
        ParsedFrom(repositories[i], Entries(config)[i], config.settings)
    {
      settings := config.settings;
      var repos := ParseRepositories(config);
      repositories := repos;
    }

    /** Clones the repository from GitHub; reports whether git clone exited 0. */
    method CloneRepo(repo: Repository, env: RepoEnv) returns (ok: bool, ran: seq<Command>)
      ensures ok <==> env.clone.code == 0
      ensures ran == [GitClone(CloneUrl(repo))]
    {
      ran := [GitClone(CloneUrl(repo))];
      ok := env.clone.code == 0;
    }

    /** Reads `.cruft.json`, runs cruft check and, when an update is
        available, cruft diff; records what it found. */
    method CheckForUpdates(repo: Repository, env: RepoEnv) returns (result: UpdateResult, ran: seq<Command>)
      ensures result == Outcome(repo, env, CheckStop(env))
      ensures ran == Issued(PlanFor(repo, env, settings), CheckStop(env))
    {
      result := NewResult(repo, true);
      ran := [];
      var cruftInfo := env.cruftJson;
      if !Linked(cruftInfo) {
        result := result.(success := false, error := Some(NotManagedError));
        return;
      }
      result := result.(oldCommit := Some(RecordedCommit(cruftInfo)));

      ran := ran + [CruftCheck];
      if env.check.code != 0 {
        result := result.(needsUpdate := true);
        ran := ran + [CruftDiff];
        if env.diff.stdout != "" {
          result := result.(changes := Take(Split(env.diff.stdout, '\n'), MaxChangeLines));
        }
      }
    }

    /** Checks the repository and, when an update is available and automatic
        updates are on, applies it on a fresh branch, commits, pushes and
        opens a pull request. It stops when cruft update exits non-zero, when
        git status shows nothing to commit, or when the push fails; the exit
        codes of checkout, add and commit are ignored. */
    method ApplyUpdate(repo: Repository, env: RepoEnv) returns (result: UpdateResult, ran: seq<Command>)
      ensures result == Outcome(repo, env, ApplyStop(repo, env))
      ensures ran == Issued(PlanFor(repo, env, settings), ApplyStop(repo, env))
    {
      result, ran := CheckForUpdates(repo, env);
      if !result.needsUpdate || !repo.autoUpdate {
        assert ApplyStop(repo, env) == CheckStop(env);
        return;
      }
      assert CheckStop(env) == Behind;

      var branch := Branch(repo, env);
      ran := ran + [GitCheckout(branch)];
      ran := ran + [CruftUpdate];
      if env.update.code != 0 {
        result := result.(success := false, error := Some("Cruft update failed: " + env.update.stderr));
        assert ApplyStop(repo, env) == UpdateFailed;
        return;
      }
      result, ran := Publish(repo, env, branch, result, ran);
    }

    /** The rest of an update once cruft update succeeded on `branch`,
        continuing the result and the commands of the run so far: read back
        the commit, stop when git status shows nothing, else commit, push the
        branch and open the pull request. */
    method Publish(repo: Repository, env: RepoEnv, branch: string, soFar: UpdateResult, before: seq<Command>)
      returns (result: UpdateResult, ran: seq<Command>)
      requires CheckStop(env).Behind? && repo.autoUpdate && env.update.code == 0
      requires branch == Branch(repo, env)
      requires soFar == Outcome(repo, env, Behind)
      requires before == Issued(PlanFor(repo, env, settings), UpdateFailed)
      ensures result == Outcome(repo, env, ApplyStop(repo, env))
      ensures ran == Issued(PlanFor(repo, env, settings), ApplyStop(repo, env))
    {
      ghost var plan := PlanFor(repo, env, settings);
      result, ran := soFar, before;
      assert result.success && result.needsUpdate && result.prUrl.None? && result.error.None?;
      var newInfo := env.cruftJsonAfter;
      if Linked(newInfo) {
        result := result.(newCommit := Some(RecordedCommit(newInfo)));
      }
      assert result.newCommit == NewCommit(env.cruftJsonAfter);

      ran := ran + [GitStatus];
      if Strip(env.status.stdout) == "" {
        result := result.(needsUpdate := false);
        assert ApplyStop(repo, env) == NoChanges;
        return;
      }

      ran := ran + [GitAddAll];
      var message := MessageFor(result.oldCommit, result.newCommit);
      assert message == plan.message;
      ran := ran + [GitCommit(message)];
      ran := ran + [GitPush(branch)];
      if env.push.code != 0 {
        result := result.(success := false, error := Some("Failed to push branch: " + env.push.stderr));
        assert ApplyStop(repo, env) == PushFailed;
        return;
      }

      result, ran := OpenPullRequest(repo, env, result, ran);
    }

    /** The last step of an update, once the branch is pushed: open the pull
        request and record its URL, or the error gh reported. */
    method OpenPullRequest(repo: Repository, env: RepoEnv, soFar: UpdateResult, before: seq<Command>)
      returns (result: UpdateResult, ran: seq<Command>)
      requires CheckStop(env).Behind? && repo.autoUpdate && env.update.code == 0
      requires Strip(env.status.stdout) != "" && env.push.code == 0
      requires soFar == Outcome(repo, env, PrOpened).(prUrl := None)
      requires before == Issued(PlanFor(repo, env, settings), PushFailed)
      ensures result == Outcome(repo, env, ApplyStop(repo, env))
      ensures ran == Issued(PlanFor(repo, env, settings), ApplyStop(repo, env))
    {
      ghost var plan := PlanFor(repo, env, settings);
      result := soFar;
      var body := PrBodyFor(settings, repo, result.oldCommit, result.newCommit, result.changes);
      assert body == plan.body;
      ran := before + [PrCreate(PrTitle(settings), body, "main")];
      if env.pr.code == 0 {
        result := result.(prUrl := Some(Strip(env.pr.stdout)));
        assert ApplyStop(repo, env) == PrOpened;
      } else {
        result := result.(error := Some("Failed to create PR: " + env.pr.stderr));
        assert ApplyStop(repo, env) == PrFailed;
      }
    }

    /** The work done for one repository in a scratch directory: use the
        local copy when one is configured and exists, clone otherwise (a
        failed clone is recorded and ends the work), then check (dry run) or
        apply. */
    method ProcessRepository(repo: Repository, env: RepoEnv, dryRun: bool) returns (result: UpdateResult, ran: seq<Command>)
      ensures Processed(repo, env, settings, dryRun, result, ran)
    {
      ran := [];
      if Present(repo.localPath) && env.localPathExists {
        // the local copy is copied into the scratch directory; no command runs
      } else {
        var ok;
        ok, ran := CloneRepo(repo, env);
        if !ok {
          result := NewResult(repo, false).(error := Some(CloneError));
          return;
        }
      }

      var steps;
      if dryRun {
        result, steps := CheckForUpdates(repo, env);
      } else {
        result, steps := ApplyUpdate(repo, env);
      }
      ran := ran + steps;
    }

    /** Processes every registered repository in order, one result and one
        command trace each. */
    method RunUpdates(envs: seq<RepoEnv>, dryRun: bool) returns (results: seq<UpdateResult>, runs: seq<seq<Command>>)
      requires |envs| == |repositories|
      ensures |results| == |repositories| && |runs| == |repositories|
      ensures forall i :: 0 <= i < |repositories| ==>
        Processed(repositories[i], envs[i], settings, dryRun, results[i], runs[i])
    {
      results, runs := [], [];
      for i := 0 to |repositories|
        invariant |results| == i && |runs| == i
        invariant forall k :: 0 <= k < i ==>
          Processed(repositories[k], envs[k], settings, dryRun, results[k], runs[k])
      {
        var result, ran := ProcessRepository(repositories[i], envs[i], dryRun);
        results := results + [result];
        runs := runs + [ran];
      }
    }

    /** Renders the Markdown report: the summary counts, then one block per
        result with its status, PR, error and commits. */
    method GenerateReport(results: seq<UpdateResult>, generatedAt: string) returns (report: string)
      ensures report == ReportText(results, generatedAt)
    {
      var lines := Render(SummaryLines(results, generatedAt));
      assert SummaryLines(results, generatedAt) + Details(results[..0]) == SummaryLines(results, generatedAt);
      for i := 0 to |results|
        invariant lines == Render(SummaryLines(results, generatedAt) + Details(results[..i]))
      {
        var r := results[i];
        var block := [Section(r.repo.name, r.success).Text(), Status(r.needsUpdate).Text()];
        if Present(r.prUrl) {
          block := block + [Pr(r.prUrl.value).Text()];
        }
        if Present(r.error) {
          block := block + [ErrorLine(r.error.value).Text()];
        }
        if Present(r.oldCommit) && Present(r.newCommit) {
          block := block + [Commits(r.oldCommit.value, r.newCommit.value).Text()];
        }
        RenderDetailLines(r);
        assert block == Render(DetailLines(r));
        ReportStep(results, generatedAt, i);
        lines := lines + block;
      }
      assert results[..|results|] == results;
      report := Join(lines, "\n");
    }
  }
}
