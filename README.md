# cruft-manager: a verified model of the template-update orchestrator

`tools/cruft-manager/cruft_manager.py` keeps a fleet of repositories that
were generated from a cookiecutter template up to date with it, using
`cruft`. It works in four parts:

- **Registry parsing.** `CruftManager.__init__` and `_parse_repositories`
  turn the registry's `repositories` mapping into `Repository` records,
  filling in defaults.
- **Checking one repository.** `check_for_updates` reads `.cruft.json`,
  runs `cruft check`, and runs `cruft diff` when an update is available.
- **Updating one repository.** `apply_update` checks out a dated branch,
  runs `cruft update`, looks at `git status`, commits, pushes and opens a
  pull request with `gh pr create`.
  - It stops when cruft update exits non-zero, when git status shows nothing
    to commit, or when the push fails.
  - A failed `gh pr create` records an error but leaves `success` true.
  - The exit codes of checkout, add and commit are ignored.
- **The batch driver and the report.**
  - `run_updates` clones or copies each repository and checks or applies it.
  - `generate_report` renders a Markdown summary of the results.

This project models the four parts in Dafny and proves what each of them
promises.

## How the model is built

**Outside effects are inputs.** The model never runs anything.
- Every outcome of an external command is a field of one `RepoEnv` value per
  repository: an exit code, stdout and stderr (`Proc`).
  - This covers `git clone`, `cruft check`, `cruft diff`, `cruft update`,
    `git status --porcelain`, `git push` and `gh pr create`.
  - It also holds the contents of `.cruft.json` before and after the update,
    and whether the configured local path exists.
- The two clock readings are parameters:
  - the `%Y%m%d` date in the branch name is `RepoEnv.today`;
  - the report header's timestamp is `generatedAt`.

**The source's form is kept.** `CruftManager` is a class whose constant
fields `settings` and `repositories` are set by its constructor. The source's
procedures are methods that build the `UpdateResult` field by field and
return early, as the Python does. The loops are `for` loops:
- `_parse_repositories`;
- the repository loop of `run_updates`;
- the details loop of `generate_report`.

**Each method is proved against a declarative specification.**
- Module `Steps`:
  - `Stop` names the point at which processing of one repository ends: clone
    failed, no `.cruft.json`, up to date, behind, update failed, no changes,
    push failed, PR failed, or PR opened.
  - `CheckStop`, `ApplyStop` and `RunStop` say which stop the inputs lead to.
  - `Outcome` gives the `UpdateResult` recorded at each stop.
  - `Issued` gives the exact commands run up to that stop.
  - The arguments those commands carry (branch, commit message, PR title and
    body) are gathered in a `Plan`.
- Module `Report` defines the report as a list of `Line` values, each
  rendered by `Line.Text`.

The lemmas then state the source's promises about these definitions:
- which fields are set on each path;
- which steps can never follow a failure;
- that a dry run changes nothing;
- that the report counts equal filters over the results;
- that the report has one section per result.

Modules, in dependency order:

| module | file | contents |
|---|---|---|
| `Wrappers` | wrappers.dfy | `Option` |
| `Text` | text.dfy | Python's truthiness of optional strings, slicing, `split`, `join`, `strip`, decimal rendering |
| `Registry` | registry.dfy | `Repository`, the registry document, `ParseRepositories` |
| `Steps` | steps.dfy | commands, `UpdateResult`, stops, outcomes, command traces and their lemmas |
| `Report` | report.dfy | report lines, counts, sections and their lemmas |
| `Manager` | manager.dfy | class `CruftManager` and its methods |

## Model

| member | source | states |
|---|---|---|
| Registry.ParseRepositories | tools/cruft-manager/cruft_manager.py:79-96 | one `Repository` per entry of the `repositories` mapping, in mapping order, none when the mapping is missing; each has the key as name, `""` for a missing template or GitHub slug, no local path when none is given, `auto_update` true by default, and the branch prefix of the entry, else of `settings`, else `cruft/template-update` |
| Manager.CruftManager.constructor | tools/cruft-manager/cruft_manager.py:62-68 | the manager keeps the registry's `settings` and holds exactly the parsed repositories, in order |
| Manager.CruftManager.CloneRepo | tools/cruft-manager/cruft_manager.py:111-115 | clones from `https://github.com/<slug>.git`; reports success exactly when git clone exits 0 |
| Manager.CruftManager.CheckForUpdates | tools/cruft-manager/cruft_manager.py:125-151 | the result and the commands run equal the outcome and trace of the stop the check reaches (no `.cruft.json`, up to date, or behind) |
| Manager.CruftManager.ApplyUpdate | tools/cruft-manager/cruft_manager.py:153-180 | the result and the commands run equal the outcome and trace of the stop `apply_update` reaches, over all eight stops it can reach (every stop but a failed clone) |
| Manager.CruftManager.Publish | tools/cruft-manager/cruft_manager.py:181-215 | after a successful cruft update, continuing the check's result and commands: the final result and trace are those of the stop reached (no changes, push failed, or a PR outcome) |
| Manager.CruftManager.OpenPullRequest | tools/cruft-manager/cruft_manager.py:217-246 | after a successful push: the PR is created with the configured title, the formatted body and base `main`; the URL is the stripped stdout on exit 0, otherwise the error carries stderr |
| Manager.CruftManager.ProcessRepository | tools/cruft-manager/cruft_manager.py:284-316 | for one repository: the local copy is used or a clone is made; a failed clone records the clone error and runs nothing more; then a check (dry run) or an update; the result and the full trace are those of `RunStop` |
| Manager.CruftManager.RunUpdates | tools/cruft-manager/cruft_manager.py:280-318 | exactly one result and one trace per registered repository, in registry order, each the processing of that repository |
| Manager.CruftManager.GenerateReport | tools/cruft-manager/cruft_manager.py:320-353 | the report text is the summary lines followed by one details block per result, joined with newlines |
| Text.Take | tools/cruft-manager/cruft_manager.py:149 | a slice `xs[:n]` is a prefix of `xs` of length `min(n, len(xs))` |
| Text.StripSpec | tools/cruft-manager/cruft_manager.py:190 | `strip()` returns the contiguous piece of the text left between its leading whitespace and the whitespace that follows the piece; it is empty exactly when the text is all whitespace, and otherwise neither starts nor ends with whitespace |
| Text.SplitSpec | tools/cruft-manager/cruft_manager.py:149 | no piece of `split(sep)` contains the separator |
| Text.JoinSplit | tools/cruft-manager/cruft_manager.py:149 | joining the pieces of `split(sep)` with `sep` gives the text back |
| Text.JoinTakeIsPrefix | tools/cruft-manager/cruft_manager.py:222 | joining the first `n` pieces gives a prefix of joining them all |
| Text.Decimal | tools/cruft-manager/cruft_manager.py:326-329 | a count renders as a non-empty string of decimal digits |
| Text.DecimalValue | tools/cruft-manager/cruft_manager.py:326-329 | the digits of a rendered count denote that count |
| Text.DecimalLeadingDigit | tools/cruft-manager/cruft_manager.py:326-329 | a rendered count has no leading zero, except in `0` itself, which renders as exactly `0` |
| Steps.DiffLinesBounds | tools/cruft-manager/cruft_manager.py:147-149 | at most 50 change lines are kept; none exactly when cruft diff printed nothing; no kept line holds a line break |
| Steps.DiffLinesArePrefix | tools/cruft-manager/cruft_manager.py:147-149 | the kept lines, joined again, are the start of the diff output, and all of it when it has at most 50 lines |
| Steps.CheckStop | tools/cruft-manager/cruft_manager.py:125-151 | the check ends in one of three ways: no `.cruft.json`, up to date, or behind |
| Steps.IssuedIsPrefix | tools/cruft-manager/cruft_manager.py:153-246 | wherever an update stops, the commands run are a prefix of the full pipeline, of the length of the stop: no step is skipped or reordered |
| Steps.IssuedSteps | tools/cruft-manager/cruft_manager.py:153-246 | every command run lies strictly before the stop's place in the pipeline, and none of them is a clone |
| Steps.TraceStopsAtStop | tools/cruft-manager/cruft_manager.py:280-316 | a repository's trace holds at most one clone, first and only when no local copy is used; every other command lies before the stop |
| Steps.CheckWithoutCruftJson | tools/cruft-manager/cruft_manager.py:127-134 | with `.cruft.json` absent or empty: not successful, no update needed, an error, no old commit, no changes, and no cruft command run |
| Steps.CheckLinked | tools/cruft-manager/cruft_manager.py:136-151 | for a linked repository: success, no error; old commit is the recorded `commit` or `"unknown"`; update needed exactly when cruft check exits non-zero; cruft diff runs exactly then; at most 50 change lines, which begin the diff output, and none when that output is empty |
| Steps.ApplySkips | tools/cruft-manager/cruft_manager.py:155-163 | with no update needed or `auto_update` off, `apply_update` ends where the check ends and issues no command that changes anything |
| Steps.ApplyUpdateFailure | tools/cruft-manager/cruft_manager.py:172-180 | a non-zero cruft update fails the repository with `Cruft update failed: <stderr>`, no new commit and no PR |
| Steps.NothingAfterUpdateFailure | tools/cruft-manager/cruft_manager.py:177-180 | when cruft update exits non-zero, `apply_update` runs no status, add, commit, push or PR command |
| Steps.ApplyNoChanges | tools/cruft-manager/cruft_manager.py:182-193 | an all-whitespace `git status --porcelain` after a successful update resets `needs_update` to false, with success, no error, no PR and the new commit read back |
| Steps.NothingAfterNoChanges | tools/cruft-manager/cruft_manager.py:190-193 | when git status after a successful update shows only whitespace, `apply_update` runs no add, commit, push or PR command |
| Steps.ApplyPushFailure | tools/cruft-manager/cruft_manager.py:212-215 | a failed push fails the repository with `Failed to push branch: <stderr>` and no PR URL |
| Steps.NothingAfterPushFailure | tools/cruft-manager/cruft_manager.py:212-215 | when the push of a committed update fails, `apply_update` stops there and attempts no pull request |
| Steps.ApplyPrFailure | tools/cruft-manager/cruft_manager.py:240-244 | a failed gh pr create records `Failed to create PR: <stderr>` but leaves the repository successful, with the update still pending and no URL |
| Steps.PrUrlOnlyAfterPush | tools/cruft-manager/cruft_manager.py:207-244 | a PR URL is recorded if and only if an update was found, auto-update is on, cruft update succeeded, git status shows changes, the push succeeded and gh pr create exited 0 |
| Steps.PrCreateOnlyAfterPush | tools/cruft-manager/cruft_manager.py:207-244 | gh pr create is only run outside a dry run and after a successful push |
| Steps.RunCloneFailure | tools/cruft-manager/cruft_manager.py:291-306 | a failed clone with no usable local copy yields a failed result with `Failed to clone repository`, and the only command run is the clone |
| Steps.DryRunNeverMutates | tools/cruft-manager/cruft_manager.py:307-314 | a dry run issues no checkout, update, add, commit, push or PR command |
| Steps.OutcomeConsistent | tools/cruft-manager/cruft_manager.py:45-56 | every recorded result names its repository and is consistent: a failure has an error; a PR URL implies success, a pending update and no error; no old commit means failure with nothing to update; a new commit implies an old one; at most 50 change lines |
| Report.CountIsFilter | tools/cruft-manager/cruft_manager.py:327-329 | each summary count equals the number of results that pass its filter |
| Report.CountsAgree | tools/cruft-manager/cruft_manager.py:327-329 | over consistent results, successful updates never outnumber available ones, and successful updates plus errors never exceed the total |
| Report.ReportCounts | tools/cruft-manager/cruft_manager.py:322-333 | the summary lines state the total, the needs-update count, the success-with-PR count and the failure count, each as the size of its filter over the results |
| Report.ReportCountTexts | tools/cruft-manager/cruft_manager.py:326-329 | in the rendered report, the four summary lines are their captions followed by at least one digit, with no leading zero unless the number is `0`, and these digits denote the total, the needs-update count, the success-with-PR count and the failure count |
| Report.ReportStep | tools/cruft-manager/cruft_manager.py:335-351 | the report lines up to one more result extend the earlier lines by that result's block |
| Report.RenderDetailLines | tools/cruft-manager/cruft_manager.py:335-351 | a block's texts are the heading and status, then the PR, error and commits lines, each only when present |
| Report.BlockSections | tools/cruft-manager/cruft_manager.py:339-351 | each details block holds exactly one section line, naming its repository and success |
| Report.DetailSections | tools/cruft-manager/cruft_manager.py:335-351 | the details hold one section line per result, in result order |
| Report.ReportSections | tools/cruft-manager/cruft_manager.py:320-353 | the whole report holds exactly one section per result, in result order |
| Report.HeadingText | tools/cruft-manager/cruft_manager.py:339 | a report line renders as a `###` heading if and only if it is a section line |
| Report.ReportHeadings | tools/cruft-manager/cruft_manager.py:320-353 | among the rendered report lines there is exactly one `###` heading per result, in order, each naming the repository with its success mark |
| Report.CommitsText | tools/cruft-manager/cruft_manager.py:348-351 | a line renders with the `- Commits: ` prefix if and only if it is a commits line |
| Report.CommitsShown | tools/cruft-manager/cruft_manager.py:348-351 | a block shows a commits line if and only if both commits are present and non-empty; it is then the last line, with each commit cut to 8 characters |

## Left out

- `_run_command`, `_get_cruft_info` and `_load_registry` are left out. They
  do subprocess, file, JSON and YAML I/O. Their results are the inputs
  `RepoEnv` and `Config`.
  - The registry-file existence check is not modelled.
  - YAML or JSON parse errors, non-string values and a `null` mapping are not
    modelled.
  - `.cruft.json` is modelled as a map from keys to strings, so non-string
    values are not represented. A file whose fields all have non-string
    values would be an empty map and count as not linked. In the source that
    object is truthy and the check goes on. The old commit is then
    `"unknown"` when there is no `commit` key, and otherwise the non-string
    value itself (`None` for `null`).
  - Likewise, a file with string fields and a non-string `commit` is linked
    in the model with the old commit `"unknown"`. The source records the
    value itself, and a number there raises when the commit message cuts it
    to 8 characters.
- The `templates` field read by the constructor is left out. Only the scan
  mode of `main`, which is left out too, uses it.
- `tempfile.TemporaryDirectory` and `shutil.copytree` are left out. They are
  filesystem effects. Copying the local path issues no command, and a copy
  that fails is not modelled.
- `scan_github_for_repos`, `main` and logging are left out. They are network
  access, argument parsing, file writing and log output.
- The exit codes of `git checkout -b`, `git add -A` and `git commit` are not
  modelled. The source ignores them, so they have no field in `RepoEnv`.
- `str.format` on the PR body template is not modelled. The body is a
  `PrBody` value holding the template and the four arguments it is formatted
  with. A template with unknown placeholders, which raises in Python, is not
  modelled.
- `datetime.now()` is a parameter in two places:
  - `RepoEnv.today` is the branch date, already formatted;
  - `generatedAt` is the report timestamp, already rendered.
- `apply_update` is one function in the source. The model splits it into
  `ApplyUpdate`, `Publish` (from reading the new commit to the push) and
  `OpenPullRequest` (the last step). `Publish` and `OpenPullRequest` take the
  result and the commands of the run so far. Likewise, the body of the
  `run_updates` loop is `ProcessRepository`.
- Each command is recorded once in the trace, in order. `cruft_manager.py`
  has no retries, worker pool, duplicate-name check or path that updates an
  existing pull request, so the model has none either.
- A registry mapping is a sequence of entries in insertion order, and the
  model does not require distinct names. A `Config` with a repeated name
  stands for no registry the source can load: the YAML loader has already
  merged repeated keys into one entry.
