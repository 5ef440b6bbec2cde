# CI and GitHub maintenance scripts — a Dafny model

This project models six maintenance scripts:

- two that walk the CircleCI API (`get-circleci-artifacts.py`, `get-circleci-jobs-env.py`);
- four that walk the GitHub API (`get-github-artifacts.py`, `get-github-repo-permissions.py`, `get-github-single-repo-permissions.py`, `get-github-workflow-PRs.py`).

It proves properties of each.

Every HTTP response is input data. A page sequence, a chain of linked responses, or a function from URL or repository name to response stands in for the server. Each script's requests, downloads and reports become a trace of events. Each walk is an imperative method with the script's own loops. Its contract says that the trace and the final state equal a specification function of the responses. The lemmas are proved about that function.

Modules:

- `Wrappers`: `Option`.
- `Text`: `startswith`, the substring test `in`, ASCII `lower()`, Python's ordering of strings, decimal rendering of integers, `os.path.join`.
- `ProgressStore`: the progress file that both CircleCI scripts read, query and rewrite, in the class `ProgressFile`. The file has a present flag and a `map<string,int>`. A missing file reads as `{}`. A write sets one key and marks the file present. The two scripts contain the same `read_progress`, `write_progress` and `has_completed` code. They differ only in the file name (`download_progress.json` or `saved_progress.json`) and in what the key's middle part means: a pipeline id or a workflow name. The file name is not part of the model.
- `PageNumberPaging`: the page-number loop over `/orgs/{org}/repos`. `get_github_repositories` in the jobs-env script and `get_repos` in the GitHub artifacts script contain the same loop.
- `LinkPaging`: the `while url` loop that follows `next` links. `get_artifacts` and `get_repositories` use this loop. A `next` link is modelled as the response it leads to, so every chain is finite.
- `CircleArtifacts`, `CircleJobsEnv`, `GithubArtifacts`, `GithubRepoPermissions`, `GithubSingleRepoPermissions`, `GithubWorkflowPrs`: one module per script.

## Model

| member | source | states |
|---|---|---|
| ProgressStore.Lookup | get-circleci-jobs-env.py:118 | `progress.get(key, -1)`: the stored value, or -1 for an absent key |
| ProgressStore.CompositeKey | get-circleci-jobs-env.py:117 | the progress key `slug-a-b` starts with `slug-a` and has the combined length |
| ProgressStore.CompletedIff | get-circleci-jobs-env.py:115-118 | `has_completed` holds iff the key is stored with a value ≥ n, or is absent and n ≤ -1 |
| ProgressStore.CompletedAfterRecord | get-circleci-jobs-env.py:131-136 | after recording n under a key, that key is completed exactly for m ≤ n, and every other key reads as before |
| ProgressStore.RecordOverwritesLarger | get-circleci-artifacts.py:39-44 | writing 3 over a stored 5 leaves 3, so job 5 is no longer completed: the write overwrites and does not keep a maximum |
| ProgressStore.EmptyStoreHasNothing | get-circleci-jobs-env.py:120-124 | with no progress no job numbered ≥ 0 is completed and no key prefix is present |
| ProgressStore.ProgressFile.Load | get-circleci-artifacts.py:33-37 | `read_progress`: `{}` when the file is missing, otherwise its saved map |
| ProgressStore.ProgressFile.HasCompleted | get-circleci-artifacts.py:46-49 | true iff the loaded map completes the key at n; never true for n ≥ 0 when the file is missing |
| ProgressStore.ProgressFile.Write | get-circleci-artifacts.py:39-44 | the file becomes present; its map is the old map with the key set to n; afterwards has_completed holds exactly for numbers ≤ n; every other key is unchanged |
| PageNumberPaging.GetRepositories | get-circleci-jobs-env.py:47-63 | the loop's result equals the recursive definition: an error status raises for that page, an empty page or a page without `next` stops, names are appended in page order |
| PageNumberPaging.CollectsPagesUpToStop | get-github-artifacts.py:18-35 | with k the first page that does not continue, the result is the names of pages 1..k in order, or page k's error |
| PageNumberPaging.CollectsAllLinkedPages | get-circleci-jobs-env.py:55-62 | when every page has names and a `next` link, the walk ends at the empty page after them and returns all their names |
| LinkPaging.FollowNextLinks | get-github-artifacts.py:42-52 | the `while url` loop returns the items of every page reached by `next` links, in order, and stops at the first HTTP error with what it had |
| LinkPaging.ChainCollectsPages | get-github-repo-permissions.py:21-31 | for pages p1..pk, whether the chain ends normally or with an error after pk, the result is p1 + … + pk |
| LinkPaging.EveryChainIsAChain | get-github-repo-permissions.py:21-27 | every response chain is such a list of pages, possibly ending in an error, so ChainCollectsPages covers every input |
| GithubRepoPermissions.Level | get-github-repo-permissions.py:39-46 | Admin iff admin; Write iff push and not admin; Read iff only pull; None iff all three are false |
| GithubRepoPermissions.LevelIsHighestGranted | get-github-repo-permissions.py:39-46 | the reported level is granted, and no granted level ranks higher |
| GithubRepoPermissions.ReportAccessLevels | get-github-repo-permissions.py:34-46 | one entry per collected repository, in order, holding the repository's name and its level |
| GithubSingleRepoPermissions.RepoUrl | get-github-single-repo-permissions.py:15 | the URL is `https://api.github.com/repos/` followed by the full name |
| GithubSingleRepoPermissions.RepoUrlInjective | get-github-single-repo-permissions.py:15 | distinct full names give distinct URLs |
| GithubSingleRepoPermissions.CheckWriteAccessToRepo | get-github-single-repo-permissions.py:24-35 | true iff the status is 200, a `permissions` object is present and its `push` is true; a missing object or flag gives false |
| GithubSingleRepoPermissions.Message | get-github-single-repo-permissions.py:42 | "Has write access" iff the check returned true |
| GithubSingleRepoPermissions.WriteAccessMessage | get-github-single-repo-permissions.py:37-42 | `main` prints "Has write access" exactly when the status is 200 and push is true, and "No write access" otherwise |
| GithubArtifacts.ArtifactPath | get-github-artifacts.py:62-65 | the file is `DownloadedGitArtifacts/{repo}-{id}.zip` |
| GithubArtifacts.ArtifactFileNameInjective | get-github-artifacts.py:62 | for non-negative ids, different (repo, id) pairs get different file names |
| GithubArtifacts.DownloadArtifact | get-github-artifacts.py:54-73 | a download request for the artifact's `archive_download_url`; the saved path when the request succeeds, none when it fails |
| GithubArtifacts.DownloadAll | get-github-artifacts.py:87-88 | the loop issues exactly the download events of the specification, one per artifact |
| GithubArtifacts.RunMain | get-github-artifacts.py:75-88 | `main` equals its specification: a repository-listing error ends the run; otherwise each repository is listed and its artifacts downloaded |
| GithubArtifacts.VisitRepo | get-github-artifacts.py:81-85 | one repository's visit lists its artifacts and downloads them unless there are none |
| GithubArtifacts.DownloadsAttemptEach | get-github-artifacts.py:72-73 | a failed download does not stop the loop: there is one attempt per artifact, the i-th attempt for the i-th artifact |
| GithubArtifacts.NoArtifactsNoDownloads | get-github-artifacts.py:82-85 | a repository without artifacts gets its listing and no download |
| GithubArtifacts.NoReposNoRequests | get-github-artifacts.py:76-79 | no repositories means no artifact request at all |
| GithubArtifacts.EachRepoListedOnce | get-github-artifacts.py:81-82 | the artifact listings are exactly the repositories, once each, in order |
| CircleArtifacts.SplitExt | get-circleci-artifacts.py:28 | `os.path.splitext`: the two parts concatenate to the input; the extension is empty or a dot followed by no dot and no slash |
| CircleArtifacts.SplitExtFindsExtensionIff | get-circleci-artifacts.py:28 | the extension is non-empty exactly when the last path component has a `.` after some character other than `.`; with the ensures of SplitExt, it is then the text from the last `.` |
| CircleArtifacts.SplitExtExamples | get-circleci-artifacts.py:28 | `org/repo-7-out/report.txt` splits as (`org/repo-7-out/report`, `.txt`); `.cshrc` keeps its leading dot and has no extension |
| CircleArtifacts.HashFilename | get-circleci-artifacts.py:27-31 | the result is the digest of the root followed by the input's extension |
| CircleArtifacts.HashFilenameKeepsExtension | get-circleci-artifacts.py:27-31 | for a non-empty digest with no dot and no slash, splitting the hashed name gives back the digest and the original extension |
| CircleArtifacts.SaveArtifacts | get-circleci-artifacts.py:90-102 | the artifact loop saves each artifact's URL to its hashed path, in order |
| CircleArtifacts.DownloadArtifactsForProject | get-circleci-artifacts.py:57-104 | the walk's trace and final progress equal the specification run from the initial progress; a non-ok pipelines response returns with no event and the store unchanged |
| CircleArtifacts.VisitWorkflows | get-circleci-artifacts.py:74-104 | the workflow loop of one pipeline leaves the trace and progress its specification gives |
| CircleArtifacts.VisitJobs | get-circleci-artifacts.py:79-104 | the job loop of one workflow leaves the trace and progress its specification gives |
| CircleArtifacts.SavesToOnePerArtifact | get-circleci-artifacts.py:90-102 | whatever the file naming (the script's is the hashed name), one save per artifact, the i-th for the i-th artifact's URL to its file, and no progress write among them |
| CircleArtifacts.ProcessedJobShape | get-circleci-artifacts.py:85-104 | a processed job adds one artifacts request, then one save per artifact, then exactly one progress write of its number, which comes last |
| CircleArtifacts.JobStepRules | get-circleci-artifacts.py:79-83 | a job without a number or an already completed job adds nothing; any other job adds its processing and records its number |
| CircleArtifacts.ProjectRunWatermarksRise | get-circleci-artifacts.py:79-104 | each key ends at the last number written to it; the initial value followed by the numbers written is strictly increasing; so after job n, no later job numbered ≤ n in that workflow is processed |
| CircleArtifacts.RerunOnlyLists | get-circleci-artifacts.py:79-104 | a second run over the same responses, from the progress the first one left, only lists workflows and jobs and leaves the progress as it was |
| CircleArtifacts.WritingKeyRises | get-circleci-artifacts.py:81-104 | writing a number that was not completed keeps each key's written values strictly increasing from its initial value |
| CircleArtifacts.ResumeExample | get-circleci-artifacts.py:79-104 | with `{"org/repo-p1-w1": 5}`, job 5 is skipped with no request, and job 6 is processed and recorded |
| CircleJobsEnv.SeenWorkflow | get-circleci-jobs-env.py:126-129 | true iff some stored key starts with `slug-name`; never true when there is no file |
| CircleJobsEnv.RecordedNameIsSeen | get-circleci-jobs-env.py:126-134 | after write_progress(slug, name, id, n) the name is seen |
| CircleJobsEnv.SeenIsAPrefixTest | get-circleci-jobs-env.py:126-129 | a stored `build-test` key makes the workflow `build` look seen |
| CircleJobsEnv.UnseenIsNotCompleted | get-circleci-jobs-env.py:115-129 | for an unseen workflow name, has_completed is false for every job number ≥ 0 |
| CircleJobsEnv.LatestJob | get-circleci-jobs-env.py:100-102 | none exactly for an empty job list (`max` raises); otherwise the first job whose number (0 when missing) is the largest |
| CircleJobsEnv.GetWorkflowJobVars | get-circleci-jobs-env.py:71-112 | the walk's trace, final progress and crash flag equal the specification run from the initial progress |
| CircleJobsEnv.VisitWorkflows | get-circleci-jobs-env.py:83-112 | the workflow loop of one pipeline leaves the trace, progress and crash flag its specification gives |
| CircleJobsEnv.VisitWorkflow | get-circleci-jobs-env.py:88-112 | one workflow's visit leaves the trace, progress and crash flag of its specification step |
| CircleJobsEnv.WorkflowsCrashStays | get-circleci-jobs-env.py:100 | once `max` has raised, nothing more happens |
| CircleJobsEnv.WorkflowStepRules | get-circleci-jobs-env.py:88-112 | a seen workflow is skipped; one with no jobs raises after its jobs request; a completed latest job costs only the jobs request; otherwise its output is fetched and its progress written; completion needs a negative number |
| CircleJobsEnv.ProjectRunFetchesEachNameOnce | get-circleci-jobs-env.py:88-112 | in one run, no workflow name has its output fetched twice, and none that was seen at the start is fetched |
| CircleJobsEnv.RerunDoesNoWork | get-circleci-jobs-env.py:83-112 | after a run that did not crash, a second run over the same responses fetches nothing, writes nothing and leaves the progress unchanged |
| GithubWorkflowPrs.GetDefaultBranch | get-github-workflow-PRs.py:10-13 | on status 200 the `default_branch` field (or "master" when missing); "master" for any other status |
| GithubWorkflowPrs.RawWorkflowUrl | get-github-workflow-PRs.py:15-16 | the URL starts with `https://raw.githubusercontent.com/` and is as long as its parts plus three separators |
| GithubWorkflowPrs.RawWorkflowUrlNested | get-github-workflow-PRs.py:16 | after the host come org, `/`, repo, `/`, branch, `/`, path |
| GithubWorkflowPrs.RawWorkflowUrlInjective | get-github-workflow-PRs.py:16 | for slash-free org, repo and branch, the URL determines all four parts |
| GithubWorkflowPrs.WorkflowFile | get-github-workflow-PRs.py:18-20 | the text on status 200, nothing otherwise |
| GithubWorkflowPrs.TrueValue | get-github-workflow-PRs.py:26 | `.get(True)` finds the last entry whose key equals True (true or 1), and finds none iff no key does |
| GithubWorkflowPrs.PullRequestIn | get-github-workflow-PRs.py:29 | `'pull_request' in v` is key membership for a mapping, element membership for a list, a substring test for a string, and a raise for null, booleans and integers |
| GithubWorkflowPrs.IsPrTriggered | get-github-workflow-PRs.py:22-34 | false on a YAML error; a raise when the document is not a mapping; for a mapping, the answer is `'pull_request' in` the value under its `True` key, or in `{}` when there is none (so false); true only for a mapping with such a key |
| GithubWorkflowPrs.StringTriggerIsASubstringTest | get-github-workflow-PRs.py:29 | `on: pull_request_target` counts as a pull-request trigger |
| GithubWorkflowPrs.ListTriggerIsAnElementTest | get-github-workflow-PRs.py:29 | `on: [pull_request_target, push]` does not count |
| GithubWorkflowPrs.QuotedOnKeyIsNotFound | get-github-workflow-PRs.py:25-26 | a quoted `"on"` key is not found by `.get(True)` |
| GithubWorkflowPrs.EmptyTriggerRaises | get-github-workflow-PRs.py:29 | an `on:` key with no value makes the check raise |
| GithubWorkflowPrs.SortByLowerNameSorts | get-github-workflow-PRs.py:47 | `sorted(..., key=lambda r: r['name'].lower())` returns a permutation of the page in ascending order of lower-cased name |
| GithubWorkflowPrs.InsertIsPermutation | get-github-workflow-PRs.py:47 | inserting a repository into a list adds exactly that repository |
| GithubWorkflowPrs.InsertKeepsSorted | get-github-workflow-PRs.py:47 | inserting into a list sorted by lower-cased name keeps it sorted |
| GithubWorkflowPrs.CheckWorkflow | get-github-workflow-PRs.py:58-76 | the workflow loop body equals its specification: fetch the file; for a non-empty, PR-triggered file, list the PRs and report the forks |
| GithubWorkflowPrs.CheckWorkflows | get-github-workflow-PRs.py:58-76 | the workflow loop of one repository equals its specification, stopping at the first exception |
| GithubWorkflowPrs.CheckRepo | get-github-workflow-PRs.py:48-76 | the repository loop body equals its specification: filter, default branch, workflows listing, workflow loop |
| GithubWorkflowPrs.CheckRepos | get-github-workflow-PRs.py:47-76 | the repository loop of one page equals its specification, stopping at the first exception |
| GithubWorkflowPrs.CheckPage | get-github-workflow-PRs.py:47-76 | one page's work, sorting and then the repository loop, equals the page walk of the specification |
| GithubWorkflowPrs.GetForkPrUrls | get-github-workflow-PRs.py:36-77 | the whole `while True` page loop equals its specification run from page 1 |
| GithubWorkflowPrs.ForkReportsAreTheForkPrs | get-github-workflow-PRs.py:69-74 | every PR whose head repository is present and is not `org/repo` is reported, and every report is such a PR's URL |
| GithubWorkflowPrs.WorkflowListsPullsIff | get-github-workflow-PRs.py:58-68 | a workflow visit fetches its file first, and lists PRs iff the file came back 200, non-empty and PR-triggered |
| GithubWorkflowPrs.RepoRunVisits | get-github-workflow-PRs.py:48-56 | a repository excluded by `specific_repo` gets no request; a selected one is visited once; a non-200 workflows listing ends its visit with no PR request |
| GithubWorkflowPrs.PageVisitsInNameOrder | get-github-workflow-PRs.py:47-49 | a page's visits are its selected repositories, in ascending order of lower-cased name |
| GithubWorkflowPrs.PageWalkListsNoPages | get-github-workflow-PRs.py:47-76 | the work on one page requests no repository page |
| GithubWorkflowPrs.RunFromListsPages | get-github-workflow-PRs.py:38-46 | for any per-page walk that lists no pages, the page loop from page `from` requests pages from..k in order, with k the first page that does not continue |
| GithubWorkflowPrs.ForkPrRunListsPages | get-github-workflow-PRs.py:38-77 | pages 1..k are requested in order, with k the first empty or failing page; the run fails exactly when page k's status is not 200 |

## Left out

- HTTP itself is not modelled: sessions, headers, tokens, `raise_for_status` and streaming (`iter_content`). Every response is an input record, and a status or `ok` flag stands for the exception or the check.
- The CircleCI cookie login (`authenticate_to_circleci`) and the text of the private raw-output response are not modelled: the output request appears only as a `FetchOutput` event.
- File I/O is not modelled: `os.makedirs`, writing artifact bytes, and JSON encoding of the progress file. The progress file is a present flag plus a map, and JSON is assumed to round-trip.
- The MD5 digest is a function parameter. HashFilenameKeepsExtension relies only on its output being non-empty and having no `.` and no `/`, which holds for a 32-character hex digest.
- `yaml.safe_load` is a function parameter returning a `Yaml` value or a parse error. YAML floats, dates and other scalar types are not modelled.
- Printing, logging, argparse and environment variables are not modelled. This includes the token `ValueError` and `sys.argv`.
- The script-level loops over repositories in both CircleCI scripts are not modelled: `main` in get-circleci-artifacts.py, with its single-request `get_github_repositories` (get-circleci-artifacts.py:51-55), and the `__main__` block of get-circleci-jobs-env.py with its `-r` option. The model covers one project walk each.
- The module-level statements of get-github-workflow-PRs.py are not modelled: they call `os.getenv` without importing `os`. Only its functions are.
- The model assumes records carry the fields the scripts index directly (`pipeline['trigger']['type']`, `workflow['path']`, `pr['head']`, `repo['name']`). A missing field would raise `KeyError`, and that path is not modelled.
- Text.Lower: case folding covers ASCII letters only, where Python's `lower()` covers all of Unicode.
- GithubWorkflowPrs.SortByLowerNameSorts: stability is not stated. Python's `sorted` keeps repositories with equal lower-cased names in page order, and the model's insertion does too, but no lemma says so.
- CircleJobsEnv.RerunDoesNoWork: stated only for a first run that did not crash on an empty job list.
- GithubWorkflowPrs.PageVisitsInNameOrder: stated only for pages on which no workflow check raises.
- GithubWorkflowPrs.ForkPrRunListsPages: requires that no workflow check on the pages before k raises.
- PageNumberPaging and the page loop of GithubWorkflowPrs (`ReposPageAt`): every page past the supplied sequence answers 200 with an empty list, so these loops end by construction. A server that never returns an empty page, on which the scripts' `while True` loops never stop, is not modelled.
- LinkPaging: a chain of `next` links that loops back on itself is not modelled. Every chain is finite by construction.
- Concurrency is out of scope: the scripts run single-threaded. The progress file is not safe for concurrent runs, and nothing here models that.
