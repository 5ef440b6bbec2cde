/**
 * The fork-PR finder: page through an organisation's public repositories,
 * visit each page's repositories in order of lower-cased name (optionally
 * only the one named `specific_repo`), fetch each workflow file of a
 * repository from its default branch, and for every workflow triggered by
 * `pull_request` list the repository's pull requests and report those whose
 * head repository is a fork.
 *
 * Every HTTP response is a function of its URL or repository name, and
 * `yaml.safe_load` is a function-typed parameter returning a parsed value
 * or a parse error.
 */
module GithubWorkflowPrs {
  import opened Wrappers
  import opened Text

  // ---------------------------------------------------------------------
  // Default branch and raw workflow URL

  /** The response to `GET /repos/{org}/{repo}`: status and its `default_branch` field, if any. */
  datatype RepoInfoResponse = RepoInfoResponse(status: int, defaultBranch: Option<string>)

  const FallbackBranch := "master"

  /** `get_default_branch`: the response's `default_branch` on status 200 (else "master"), and "master" for any other status. */
  function GetDefaultBranch(resp: RepoInfoResponse): (branch: string)
    ensures resp.status != 200 ==> branch == FallbackBranch
    ensures resp.status == 200 && resp.defaultBranch.Some? ==> branch == resp.defaultBranch.value
    ensures resp.status == 200 && resp.defaultBranch.None? ==> branch == FallbackBranch
  {
    if resp.status == 200 then resp.defaultBranch.GetOr(FallbackBranch) else FallbackBranch
  }

  const RawHost := "https://raw.githubusercontent.com/"

  /** `get_raw_workflow_url` */
  function RawWorkflowUrl(repoName: string, path: string, org: string, branch: string): (url: string)
    ensures StartsWith(url, RawHost)
    ensures |url| == |RawHost| + |org| + |repoName| + |branch| + |path| + 3
  {
    RawHost + org + "/" + repoName + "/" + branch + "/" + path
  }

  /** The raw URL as the host followed by the three slash-separated joins. */
  lemma RawWorkflowUrlNested(repoName: string, path: string, org: string, branch: string)
    ensures RawWorkflowUrl(repoName, path, org, branch)[|RawHost|..] == org + ['/'] + (repoName + ['/'] + (branch + ['/'] + path))
  {
    var url := RawWorkflowUrl(repoName, path, org, branch);
    var tail := org + ['/'] + (repoName + ['/'] + (branch + ['/'] + path));
    assert url == RawHost + tail;
  }

  /** For slash-free organisation, repository and branch names, the raw URL determines all four parts. */
  lemma RawWorkflowUrlInjective(repo1: string, path1: string, org1: string, branch1: string,
                                repo2: string, path2: string, org2: string, branch2: string)
    requires NoChar(org1, '/') && NoChar(repo1, '/') && NoChar(branch1, '/')
    requires NoChar(org2, '/') && NoChar(repo2, '/') && NoChar(branch2, '/')
    requires RawWorkflowUrl(repo1, path1, org1, branch1) == RawWorkflowUrl(repo2, path2, org2, branch2)
    ensures repo1 == repo2 && path1 == path2 && org1 == org2 && branch1 == branch2
  {
    RawWorkflowUrlNested(repo1, path1, org1, branch1);
    RawWorkflowUrlNested(repo2, path2, org2, branch2);
    SplitAtFirst(org1, repo1 + ['/'] + (branch1 + ['/'] + path1), org2, repo2 + ['/'] + (branch2 + ['/'] + path2), '/');
    SplitAtFirst(repo1, branch1 + ['/'] + path1, repo2, branch2 + ['/'] + path2, '/');
    SplitAtFirst(branch1, path1, branch2, path2, '/');
  }

  // ---------------------------------------------------------------------
  // Is a workflow triggered by pull requests?

  /** The values `yaml.safe_load` builds from a workflow file (floats and dates are not modelled). A mapping keeps its entries in document order. */
  datatype Yaml =
    | YNull
    | YBool(b: bool)
    | YInt(i: int)
    | YStr(s: string)
    | YList(items: seq<Yaml>)
    | YMap(entries: seq<(Yaml, Yaml)>)

  /** `yaml.safe_load(content)`: a value, or a `YAMLError`. */
  datatype ParseResult = ParseError | Parsed(value: Yaml)

  /** What `is_pr_triggered_workflow` does: return a boolean, or raise an exception other than `YAMLError` (which ends the script). */
  datatype Triggered = Answer(isPr: bool) | Raised

  /** A mapping key equal to Python's `True`: YAML's unquoted `on`, `true` and `yes` load as `True`, and `1 == True`. */
  predicate IsTrueKey(k: Yaml) {
    k == YBool(true) || k == YInt(1)
  }

  /** No entry after the `i`th has a key equal to `True`. */
  predicate LastTrueKey(entries: seq<(Yaml, Yaml)>, i: nat) {
    forall j :: i < j < |entries| ==> !IsTrueKey(entries[j].0)
  }

  /** `mapping.get(True)`: the value of the last entry whose key equals `True`, since a later duplicate key overwrites an earlier one. */
  function TrueValue(entries: seq<(Yaml, Yaml)>): (r: Option<Yaml>)
    ensures r.None? <==> forall i :: 0 <= i < |entries| ==> !IsTrueKey(entries[i].0)
    ensures r.Some? ==>
      exists i :: 0 <= i < |entries| && IsTrueKey(entries[i].0) && entries[i].1 == r.value && LastTrueKey(entries, i)
  {
    if entries == [] then None
    else
      var last := entries[|entries| - 1];
      if IsTrueKey(last.0) then Some(last.1)
      else
        var r := TrueValue(entries[..|entries| - 1]);
        assert forall i :: 0 <= i < |entries| - 1 ==> entries[..|entries| - 1][i] == entries[i];
        r
  }

  function HasKey(entries: seq<(Yaml, Yaml)>, k: Yaml): (r: bool)
    ensures r <==> exists i :: 0 <= i < |entries| && entries[i].0 == k
  {
    if entries == [] then false
    else
      assert forall i :: 0 <= i < |entries| - 1 ==> entries[..|entries| - 1][i] == entries[i];
      entries[|entries| - 1].0 == k || HasKey(entries[..|entries| - 1], k)
  }

  const PullRequest := "pull_request"

  /** `'pull_request' in v`: a key of a mapping, an element of a list, a substring of a string; a `TypeError` for anything else. */
  function PullRequestIn(v: Yaml): (r: Triggered)
    ensures v.YMap? ==> r == Answer(exists i :: 0 <= i < |v.entries| && v.entries[i].0 == YStr(PullRequest))
    ensures v.YList? ==> r == Answer(YStr(PullRequest) in v.items)
    ensures v.YStr? ==> r == Answer(Contains(v.s, PullRequest))
    ensures r == Raised <==> v.YNull? || v.YBool? || v.YInt?
  {
    match v
    case YMap(es) => Answer(HasKey(es, YStr(PullRequest)))
    case YList(xs) => Answer(YStr(PullRequest) in xs)
    case YStr(s) => Answer(Contains(s, PullRequest))
    case _ => Raised
  }

  /**
   * `is_pr_triggered_workflow(content)`: False on a YAML error; otherwise
   * the loaded value must be a mapping (`.get` raises for anything else),
   * and the answer is whether `pull_request` is in its `on` value, an empty
   * mapping when there is none.
   */
  function IsPrTriggered(parse: string -> ParseResult, content: string): (r: Triggered)
    ensures parse(content).ParseError? ==> r == Answer(false)
    ensures parse(content).Parsed? && !parse(content).value.YMap? ==> r == Raised
    ensures (parse(content).Parsed? && parse(content).value.YMap? &&
             TrueValue(parse(content).value.entries).None?) ==> r == Answer(false)
    ensures r == Answer(true) ==>
      (parse(content).Parsed? && parse(content).value.YMap? && TrueValue(parse(content).value.entries).Some?)
    ensures parse(content).Parsed? && parse(content).value.YMap? ==>
      r == PullRequestIn(TrueValue(parse(content).value.entries).GetOr(YMap([])))
  {
    match parse(content)
    case ParseError => Answer(false)
    case Parsed(v) =>
      if v.YMap? then PullRequestIn(TrueValue(v.entries).GetOr(YMap([]))) else Raised
  }

  /** `on: pull_request_target` counts as triggered by pull requests, because membership in a string is a substring test; a list holding only `pull_request_target` does not. */
  lemma StringTriggerIsASubstringTest(parse: string -> ParseResult, content: string)
    requires parse(content) == Parsed(YMap([(YBool(true), YStr("pull_request_target"))]))
    ensures IsPrTriggered(parse, content) == Answer(true)
  {
    assert "pull_request_target"[..|PullRequest|] == PullRequest;
  }

  lemma ListTriggerIsAnElementTest(parse: string -> ParseResult, content: string)
    requires parse(content) == Parsed(YMap([(YBool(true), YList([YStr("pull_request_target"), YStr("push")]))]))
    ensures IsPrTriggered(parse, content) == Answer(false)
  {
    assert YStr(PullRequest) != YStr("pull_request_target");
    assert YStr(PullRequest) !in [YStr("pull_request_target"), YStr("push")];
  }

  /** A quoted `"on"` key loads as the string, not as `True`, so the workflow is not recognised. */
  lemma QuotedOnKeyIsNotFound(parse: string -> ParseResult, content: string)
    requires parse(content) == Parsed(YMap([(YStr("on"), YList([YStr(PullRequest)]))]))
    ensures IsPrTriggered(parse, content) == Answer(false)
  {
    assert !IsTrueKey(YStr("on"));
  }

  /** An `on:` key with no value loads as None, and `'pull_request' in None` raises. */
  lemma EmptyTriggerRaises(parse: string -> ParseResult, content: string, rest: seq<(Yaml, Yaml)>)
    requires parse(content) == Parsed(YMap(rest + [(YBool(true), YNull)]))
    ensures IsPrTriggered(parse, content) == Raised
  {
  }

  // ---------------------------------------------------------------------
  // Fork pull requests

  datatype HeadRepo = HeadRepo(fullName: string)

  /** A pull request record: its `html_url` and its `head.repo` (None for JSON null). */
  datatype PullRequestRecord = PullRequestRecord(htmlUrl: string, headRepo: Option<HeadRepo>)

  /** A PR is reported when its head repository exists and is not `org/repo` itself. */
  predicate IsForkPr(org: string, repoName: string, pr: PullRequestRecord) {
    pr.headRepo.Some? && pr.headRepo.value.fullName != org + "/" + repoName
  }

  // ---------------------------------------------------------------------
  // Repository order

  datatype RepoRecord = RepoRecord(name: string)

  /** `r['name'].lower()` */
  function SortKey(r: RepoRecord): string {
    Lower(r.name)
  }

  predicate SortedByLowerName(rs: seq<RepoRecord>) {
    forall i, j :: 0 <= i < j < |rs| ==> LexLe(SortKey(rs[i]), SortKey(rs[j]))
  }

  /** Puts `x` before the first element whose key is not below its own. */
  function InsertByLowerName(x: RepoRecord, rs: seq<RepoRecord>): seq<RepoRecord> {
    if rs == [] then [x]
    else if LexLe(SortKey(x), SortKey(rs[0])) then [x] + rs
    else [rs[0]] + InsertByLowerName(x, rs[1..])
  }

  /** `sorted(repos, key=lambda r: r['name'].lower())`, as an insertion sort. */
  function SortByLowerName(rs: seq<RepoRecord>): seq<RepoRecord> {
    if rs == [] then [] else InsertByLowerName(rs[0], SortByLowerName(rs[1..]))
  }

  lemma {:induction false} InsertIsPermutation(x: RepoRecord, rs: seq<RepoRecord>)
    ensures multiset(InsertByLowerName(x, rs)) == multiset(rs) + multiset{x}
  {
    if rs == [] {
    } else if LexLe(SortKey(x), SortKey(rs[0])) {
      assert InsertByLowerName(x, rs) == [x] + rs;
    } else {
      var t := InsertByLowerName(x, rs[1..]);
      InsertIsPermutation(x, rs[1..]);
      assert InsertByLowerName(x, rs) == [rs[0]] + t;
      assert multiset([rs[0]] + t) == multiset([rs[0]]) + multiset(t);
      assert rs == [rs[0]] + rs[1..];
      assert multiset(rs) == multiset([rs[0]]) + multiset(rs[1..]);
    }
  }

  /** `lo` bounds every key of `x` and `rs`, so it bounds every key of the insertion. */
  lemma {:induction false} InsertLowerBound(lo: string, x: RepoRecord, rs: seq<RepoRecord>)
    requires LexLe(lo, SortKey(x))
    requires forall k :: 0 <= k < |rs| ==> LexLe(lo, SortKey(rs[k]))
    ensures forall j :: 0 <= j < |InsertByLowerName(x, rs)| ==> LexLe(lo, SortKey(InsertByLowerName(x, rs)[j]))
  {
    if rs != [] && !LexLe(SortKey(x), SortKey(rs[0])) {
      var tail := rs[1..];
      InsertLowerBound(lo, x, tail);
      var t := InsertByLowerName(x, tail);
      assert InsertByLowerName(x, rs) == [rs[0]] + t;
    }
  }

  lemma ConsKeepsSorted(x: RepoRecord, rs: seq<RepoRecord>)
    requires SortedByLowerName(rs)
    requires forall k :: 0 <= k < |rs| ==> LexLe(SortKey(x), SortKey(rs[k]))
    ensures SortedByLowerName([x] + rs)
  {
    var r := [x] + rs;
    forall i, j | 0 <= i < j < |r|
      ensures LexLe(SortKey(r[i]), SortKey(r[j]))
    {
      if i > 0 {
        assert r[i] == rs[i - 1] && r[j] == rs[j - 1];
      } else {
        assert r[j] == rs[j - 1];
      }
    }
  }

  lemma {:induction false} InsertKeepsSorted(x: RepoRecord, rs: seq<RepoRecord>)
    requires SortedByLowerName(rs)
    ensures SortedByLowerName(InsertByLowerName(x, rs))
  {
    if rs == [] {
      assert InsertByLowerName(x, rs) == [x];
    } else if LexLe(SortKey(x), SortKey(rs[0])) {
      forall k | 0 <= k < |rs|
        ensures LexLe(SortKey(x), SortKey(rs[k]))
      {
        if k > 0 {
          LexLeTransitive(SortKey(x), SortKey(rs[0]), SortKey(rs[k]));
        }
      }
      ConsKeepsSorted(x, rs);
    } else {
      var tail := rs[1..];
      assert SortedByLowerName(tail) by {
        forall i, j | 0 <= i < j < |tail|
          ensures LexLe(SortKey(tail[i]), SortKey(tail[j]))
        {
          assert tail[i] == rs[i + 1] && tail[j] == rs[j + 1];
        }
      }
      InsertKeepsSorted(x, tail);
      LexLeTotal(SortKey(x), SortKey(rs[0]));
      forall k | 0 <= k < |tail|
        ensures LexLe(SortKey(rs[0]), SortKey(tail[k]))
      {
        assert tail[k] == rs[k + 1];
      }
      InsertLowerBound(SortKey(rs[0]), x, tail);
      ConsKeepsSorted(rs[0], InsertByLowerName(x, tail));
    }
  }

  /** The same repositories, in ascending order of lower-cased name. */
  lemma {:induction false} SortByLowerNameSorts(rs: seq<RepoRecord>)
    ensures multiset(SortByLowerName(rs)) == multiset(rs)
    ensures SortedByLowerName(SortByLowerName(rs))
  {
    if rs != [] {
      SortByLowerNameSorts(rs[1..]);
      InsertIsPermutation(rs[0], SortByLowerName(rs[1..]));
      InsertKeepsSorted(rs[0], SortByLowerName(rs[1..]));
      assert rs == [rs[0]] + rs[1..];
    }
  }

  // ---------------------------------------------------------------------
  // Responses and what the walk does

  /** A page of `GET /orgs/{org}/repos?type=public&per_page=100&page=N`. */
  datatype ReposPage = ReposPage(status: int, repos: seq<RepoRecord>)

  datatype WorkflowRecord = WorkflowRecord(name: string, path: string)

  /** `GET /repos/{org}/{repo}/actions/workflows`: status and its `workflows` list (empty when missing). */
  datatype WorkflowsResponse = WorkflowsResponse(status: int, workflows: seq<WorkflowRecord>)

  datatype FileResponse = FileResponse(status: int, text: string)

  datatype PullsResponse = PullsResponse(status: int, pulls: seq<PullRequestRecord>)

  /** The responses, per repository name or raw URL, and `yaml.safe_load`. */
  datatype Api = Api(
    repoInfo: string -> RepoInfoResponse,
    workflows: string -> WorkflowsResponse,
    file: string -> FileResponse,
    pulls: string -> PullsResponse,
    parse: string -> ParseResult)

  datatype Event =
    | ListRepos(page: nat)
    | GetRepo(repoName: string)
    | ListWorkflows(repoName: string)
    | FetchFile(url: string)
    | ListPulls(repoName: string)
    | ReportForkPr(htmlUrl: string)

  /** Why the script stopped early: a repositories page with a status other than 200, or an exception while checking a workflow file. */
  datatype Failure = ReposStatus(status: int) | WorkflowCheckRaised(url: string)

  /** The events of a walk and the exception, if any, that ended it. */
  datatype Run = Run(trace: seq<Event>, failure: Option<Failure>)

  /** `a` followed by `b`, unless `a` ended in an exception. */
  function Then(a: Run, b: Run): (r: Run)
    ensures a.failure.Some? ==> r == a
    ensures a.failure.None? ==> r.trace == a.trace + b.trace && r.failure == b.failure
  {
    if a.failure.Some? then a else Run(a.trace + b.trace, b.failure)
  }

  /** The page at 1-based number `page`; past the supplied ones, 200 with no repositories. */
  function ReposPageAt(pages: seq<ReposPage>, page: nat): (p: ReposPage)
    ensures page == 0 || page > |pages| ==> p == ReposPage(200, [])
  {
    if 1 <= page <= |pages| then pages[page - 1] else ReposPage(200, [])
  }

  /** `get_workflow_file`: the text on status 200, None otherwise. */
  function WorkflowFile(resp: FileResponse): (content: Option<string>)
    ensures content.Some? <==> resp.status == 200
    ensures content.Some? ==> content.value == resp.text
  {
    if resp.status == 200 then Some(resp.text) else None
  }

  /** The reports for the fork PRs among `prs`, in order. */
  function ForkReports(org: string, repoName: string, prs: seq<PullRequestRecord>): seq<Event> {
    if prs == [] then []
    else
      var pr := prs[|prs| - 1];
      ForkReports(org, repoName, prs[..|prs| - 1]) + if IsForkPr(org, repoName, pr) then [ReportForkPr(pr.htmlUrl)] else []
  }

  /** One workflow: fetch its file; when it is non-empty and triggered by pull requests, list the PRs and report the forks. */
  function WorkflowRun(org: string, api: Api, repoName: string, branch: string, w: WorkflowRecord): Run {
    var url := RawWorkflowUrl(repoName, w.path, org, branch);
    var content := WorkflowFile(api.file(url));
    if content.None? || content.value == "" then Run([FetchFile(url)], None)
    else
      match IsPrTriggered(api.parse, content.value)
      case Raised => Run([FetchFile(url)], Some(WorkflowCheckRaised(url)))
      case Answer(isPr) =>
        if !isPr then Run([FetchFile(url)], None)
        else
          var pulls := api.pulls(repoName);
          var listed := [FetchFile(url), ListPulls(repoName)];
          if pulls.status != 200 then Run(listed, None)
          else Run(listed + ForkReports(org, repoName, pulls.pulls), None)
  }

  function WorkflowsRun(org: string, api: Api, repoName: string, branch: string, ws: seq<WorkflowRecord>): Run {
    if ws == [] then Run([], None)
    else Then(WorkflowsRun(org, api, repoName, branch, ws[..|ws| - 1]), WorkflowRun(org, api, repoName, branch, ws[|ws| - 1]))
  }

  /** `specific_repo` is empty, or names this repository up to case. */
  predicate Selected(specificRepo: string, repo: RepoRecord) {
    specificRepo == "" || Lower(repo.name) == Lower(specificRepo)
  }

  /** One repository: skipped unless selected; else get its default branch, list its workflows, and walk them when the listing succeeds. */
  function RepoRun(org: string, specificRepo: string, api: Api, repo: RepoRecord): Run {
    if !Selected(specificRepo, repo) then Run([], None)
    else
      var branch := GetDefaultBranch(api.repoInfo(repo.name));
      var head := Run([GetRepo(repo.name), ListWorkflows(repo.name)], None);
      var resp := api.workflows(repo.name);
      if resp.status != 200 then head
      else Then(head, WorkflowsRun(org, api, repo.name, branch, resp.workflows))
  }

  function ReposRun(org: string, specificRepo: string, api: Api, rs: seq<RepoRecord>): Run {
    if rs == [] then Run([], None)
    else Then(ReposRun(org, specificRepo, api, rs[..|rs| - 1]), RepoRun(org, specificRepo, api, rs[|rs| - 1]))
  }

  /** The walk of one page's repositories: sorted by lower-cased name, then visited in order. */
  function PageWalk(org: string, specificRepo: string, api: Api): seq<RepoRecord> -> Run {
    rs => ReposRun(org, specificRepo, api, SortByLowerName(rs))
  }

  /**
   * The page loop from repositories page `page` on, with `walk` the walk of
   * one page's repositories. Kept apart from the page walk so that what the
   * loop does with pages can be stated for any walk.
   */
  function RunFrom(walk: seq<RepoRecord> -> Run, pages: seq<ReposPage>, page: nat): Run
    decreases if page <= |pages| then |pages| + 1 - page else 0
  {
    var p := ReposPageAt(pages, page);
    if p.status != 200 then Run([ListRepos(page)], Some(ReposStatus(p.status)))
    else if p.repos == [] then Run([ListRepos(page)], None)
    else
      var r := Then(Run([ListRepos(page)], None), walk(p.repos));
      if r.failure.Some? then r else Then(r, RunFrom(walk, pages, page + 1))
  }

  /** `get_fork_pr_urls(org, token, specific_repo)` */
  function ForkPrRun(org: string, specificRepo: string, api: Api, pages: seq<ReposPage>): Run {
    RunFrom(PageWalk(org, specificRepo, api), pages, 1)
  }

  lemma {:induction false} WorkflowsFailureStays(org: string, api: Api, repoName: string, branch: string, ws: seq<WorkflowRecord>, k: nat)
    requires k <= |ws|
    requires WorkflowsRun(org, api, repoName, branch, ws[..k]).failure.Some?
    ensures WorkflowsRun(org, api, repoName, branch, ws) == WorkflowsRun(org, api, repoName, branch, ws[..k])
    decreases |ws| - k
  {
    if k < |ws| {
      var init := ws[..|ws| - 1];
      assert init[..k] == ws[..k];
      WorkflowsFailureStays(org, api, repoName, branch, init, k);
    } else {
      assert ws[..k] == ws;
    }
  }

  lemma {:induction false} ReposFailureStays(org: string, specificRepo: string, api: Api, rs: seq<RepoRecord>, k: nat)
    requires k <= |rs|
    requires ReposRun(org, specificRepo, api, rs[..k]).failure.Some?
    ensures ReposRun(org, specificRepo, api, rs) == ReposRun(org, specificRepo, api, rs[..k])
    decreases |rs| - k
  {
    if k < |rs| {
      var init := rs[..|rs| - 1];
      assert init[..k] == rs[..k];
      ReposFailureStays(org, specificRepo, api, init, k);
    } else {
      assert rs[..k] == rs;
    }
  }

  // ---------------------------------------------------------------------
  // The walk as the script performs it

  /** The body of the workflow loop. */
  method CheckWorkflow(org: string, api: Api, repoName: string, branch: string, w: WorkflowRecord)
    returns (events: seq<Event>, failure: Option<Failure>)
    ensures Run(events, failure) == WorkflowRun(org, api, repoName, branch, w)
  {
    var url := RawWorkflowUrl(repoName, w.path, org, branch);
    events, failure := [FetchFile(url)], None;
    var content := WorkflowFile(api.file(url));
    if content.None? || content.value == "" {
      return;
    }
    var triggered := IsPrTriggered(api.parse, content.value);
    if triggered.Raised? {
      failure := Some(WorkflowCheckRaised(url));
      return;
    }
    if !triggered.isPr {
      return;
    }
    events := events + [ListPulls(repoName)];
    var pullsResp := api.pulls(repoName);
    if pullsResp.status != 200 {
      return;
    }
    var prs := pullsResp.pulls;
    ghost var listed := events;
    for k := 0 to |prs|
      invariant events == listed + ForkReports(org, repoName, prs[..k])
    {
      assert prs[..k + 1][..k] == prs[..k];
      var pr := prs[k];
      if pr.headRepo.Some? && pr.headRepo.value.fullName != org + "/" + repoName {
        events := events + [ReportForkPr(pr.htmlUrl)];
      }
    }
    assert prs[..|prs|] == prs;
  }

  /** The body of the repository loop. */
  method CheckRepo(org: string, specificRepo: string, api: Api, repo: RepoRecord)
    returns (events: seq<Event>, failure: Option<Failure>)
    ensures Run(events, failure) == RepoRun(org, specificRepo, api, repo)
  {
    events, failure := [], None;
    if specificRepo != "" && Lower(repo.name) != Lower(specificRepo) {
      return;
    }
    var branch := GetDefaultBranch(api.repoInfo(repo.name));
    events := [GetRepo(repo.name), ListWorkflows(repo.name)];
    var workflowsResp := api.workflows(repo.name);
    if workflowsResp.status != 200 {
      return;
    }
    var more, raised := CheckWorkflows(org, api, repo.name, branch, workflowsResp.workflows);
    events, failure := events + more, raised;
  }

  /** The workflow loop of one repository. */
  method CheckWorkflows(org: string, api: Api, repoName: string, branch: string, workflows: seq<WorkflowRecord>)
    returns (events: seq<Event>, failure: Option<Failure>)
    ensures Run(events, failure) == WorkflowsRun(org, api, repoName, branch, workflows)
  {
    events, failure := [], None;
    for j := 0 to |workflows|
      invariant Run(events, None) == WorkflowsRun(org, api, repoName, branch, workflows[..j])
    {
      assert workflows[..j + 1][..j] == workflows[..j];
      var more, raised := CheckWorkflow(org, api, repoName, branch, workflows[j]);
      events := events + more;
      if raised.Some? {
        failure := raised;
        WorkflowsFailureStays(org, api, repoName, branch, workflows, j + 1);
        return;
      }
    }
    assert workflows[..|workflows|] == workflows;
  }

  /** The repository loop of one page. */
  method CheckRepos(org: string, specificRepo: string, api: Api, repos: seq<RepoRecord>)
    returns (events: seq<Event>, failure: Option<Failure>)
    ensures Run(events, failure) == ReposRun(org, specificRepo, api, repos)
  {
    events, failure := [], None;
    for i := 0 to |repos|
      invariant Run(events, None) == ReposRun(org, specificRepo, api, repos[..i])
    {
      assert repos[..i + 1][..i] == repos[..i];
      var more, raised := CheckRepo(org, specificRepo, api, repos[i]);
      events := events + more;
      if raised.Some? {
        failure := raised;
        ReposFailureStays(org, specificRepo, api, repos, i + 1);
        return;
      }
    }
    assert repos[..|repos|] == repos;
  }

  /** The repositories of one page, in order of lower-cased name. */
  method CheckPage(org: string, specificRepo: string, api: Api, page: seq<RepoRecord>)
    returns (events: seq<Event>, failure: Option<Failure>)
    ensures Run(events, failure) == PageWalk(org, specificRepo, api)(page)
  {
    var repos := SortByLowerName(page);
    events, failure := CheckRepos(org, specificRepo, api, repos);
  }

  /** The last turn of the page loop, for a page with a status other than 200 or no repositories. */
  lemma RunFromEnds(walk: seq<RepoRecord> -> Run, pages: seq<ReposPage>, page: nat, trace: seq<Event>)
    requires ReposPageAt(pages, page).status != 200 || ReposPageAt(pages, page).repos == []
    ensures var status := ReposPageAt(pages, page).status;
      Then(Run(trace, None), RunFrom(walk, pages, page)) ==
        Run(trace + [ListRepos(page)], if status != 200 then Some(ReposStatus(status)) else None)
  {
  }

  /** One turn of the page loop, for a page with status 200 and some repositories. */
  lemma RunFromPage(walk: seq<RepoRecord> -> Run, pages: seq<ReposPage>, page: nat, trace: seq<Event>)
    requires ReposPageAt(pages, page).status == 200 && ReposPageAt(pages, page).repos != []
    ensures var r := walk(ReposPageAt(pages, page).repos);
      var done := trace + [ListRepos(page)] + r.trace;
      Then(Run(trace, None), RunFrom(walk, pages, page)) ==
        if r.failure.Some? then Run(done, r.failure)
        else Then(Run(done, None), RunFrom(walk, pages, page + 1))
  {
    var r := walk(ReposPageAt(pages, page).repos);
    var listed := Then(Run([ListRepos(page)], None), r);
    assert listed == Run([ListRepos(page)] + r.trace, r.failure);
    var whole := RunFrom(walk, pages, page);
    if r.failure.None? {
      var rest := RunFrom(walk, pages, page + 1);
      assert whole == Then(listed, rest);
      assert trace + ([ListRepos(page)] + r.trace + rest.trace) == trace + [ListRepos(page)] + r.trace + rest.trace;
    } else {
      assert whole == listed;
    }
  }

  /**
   * `get_fork_pr_urls`: request repositories pages 1, 2, ... raising on a
   * status other than 200 and stopping after an empty page; visit each
   * page's repositories in order of lower-cased name.
   */
  method GetForkPrUrls(org: string, specificRepo: string, api: Api, pages: seq<ReposPage>)
    returns (trace: seq<Event>, failure: Option<Failure>)
    ensures Run(trace, failure) == ForkPrRun(org, specificRepo, api, pages)
  {
    trace, failure := [], None;
    var page: nat := 1;
    while true
      invariant 1 <= page <= |pages| + 1
      invariant ForkPrRun(org, specificRepo, api, pages) == Then(Run(trace, None), RunFrom(PageWalk(org, specificRepo, api), pages, page))
      decreases |pages| + 1 - page
    {
      var reposResp := ReposPageAt(pages, page);
      if reposResp.status != 200 || reposResp.repos == [] {
        RunFromEnds(PageWalk(org, specificRepo, api), pages, page, trace);
      } else {
        RunFromPage(PageWalk(org, specificRepo, api), pages, page, trace);
      }
      trace := trace + [ListRepos(page)];
      if reposResp.status != 200 {
        failure := Some(ReposStatus(reposResp.status));
        return;
      }
      if reposResp.repos == [] {
        break;
      }
      var events, raised := CheckPage(org, specificRepo, api, reposResp.repos);
      trace := trace + events;
      if raised.Some? {
        failure := raised;
        return;
      }
      page := page + 1;
    }
  }

  // ---------------------------------------------------------------------
  // What the walk reports, and for which workflows it lists PRs

  /** Events issued inside a workflow visit. */
  predicate WorkflowEventsOnly(t: seq<Event>) {
    forall i :: 0 <= i < |t| ==> t[i].FetchFile? || t[i].ListPulls? || t[i].ReportForkPr?
  }

  /**
   * Every fork PR of the list is reported, and every report is the URL of a
   * fork PR of the list: the filter keeps a PR iff its head repository is
   * present and differs from `org/repo`.
   */
  lemma {:induction false} ForkReportsAreTheForkPrs(org: string, repoName: string, prs: seq<PullRequestRecord>)
    ensures forall i :: 0 <= i < |prs| && IsForkPr(org, repoName, prs[i]) ==>
      ReportForkPr(prs[i].htmlUrl) in ForkReports(org, repoName, prs)
    ensures forall e :: e in ForkReports(org, repoName, prs) ==>
      exists i :: 0 <= i < |prs| && IsForkPr(org, repoName, prs[i]) && e == ReportForkPr(prs[i].htmlUrl)
    ensures |ForkReports(org, repoName, prs)| <= |prs|
  {
    if prs != [] {
      var init, last := prs[..|prs| - 1], prs[|prs| - 1];
      ForkReportsAreTheForkPrs(org, repoName, init);
      assert forall i :: 0 <= i < |init| ==> init[i] == prs[i];
    }
  }

  lemma ForkReportsAreWorkflowEvents(org: string, repoName: string, prs: seq<PullRequestRecord>)
    ensures WorkflowEventsOnly(ForkReports(org, repoName, prs))
    ensures ListPulls(repoName) !in ForkReports(org, repoName, prs)
  {
    ForkReportsAreTheForkPrs(org, repoName, prs);
    var t := ForkReports(org, repoName, prs);
    forall i | 0 <= i < |t|
      ensures t[i].ReportForkPr?
    {
      assert t[i] in t;
    }
  }

  /**
   * A workflow visit always fetches the workflow file first, and lists the
   * repository's pull requests iff the file came back with status 200 and a
   * non-empty text that `is_pr_triggered_workflow` accepts.
   */
  lemma WorkflowListsPullsIff(org: string, api: Api, repoName: string, branch: string, w: WorkflowRecord)
    ensures var url := RawWorkflowUrl(repoName, w.path, org, branch);
      var t := WorkflowRun(org, api, repoName, branch, w).trace;
      && t != [] && t[0] == FetchFile(url)
      && WorkflowEventsOnly(t)
      && (ListPulls(repoName) in t <==>
           api.file(url).status == 200 && api.file(url).text != "" && IsPrTriggered(api.parse, api.file(url).text) == Answer(true))
  {
    var url := RawWorkflowUrl(repoName, w.path, org, branch);
    var pulls := api.pulls(repoName);
    ForkReportsAreWorkflowEvents(org, repoName, pulls.pulls);
    var listed := [FetchFile(url), ListPulls(repoName)];
    var t := listed + ForkReports(org, repoName, pulls.pulls);
    forall i | 0 <= i < |t|
      ensures t[i].FetchFile? || t[i].ListPulls? || t[i].ReportForkPr?
    {
      if i >= 2 {
        assert t[i] == ForkReports(org, repoName, pulls.pulls)[i - 2];
      }
    }
    assert t[1] == ListPulls(repoName);
  }

  lemma WorkflowEventsAppend(a: seq<Event>, b: seq<Event>)
    requires WorkflowEventsOnly(a) && WorkflowEventsOnly(b)
    ensures WorkflowEventsOnly(a + b)
  {
    forall i | 0 <= i < |a + b|
      ensures (a + b)[i].FetchFile? || (a + b)[i].ListPulls? || (a + b)[i].ReportForkPr?
    {
      if i >= |a| {
        assert (a + b)[i] == b[i - |a|];
      } else {
        assert (a + b)[i] == a[i];
      }
    }
  }

  lemma {:induction false} WorkflowsRunEvents(org: string, api: Api, repoName: string, branch: string, ws: seq<WorkflowRecord>)
    ensures WorkflowEventsOnly(WorkflowsRun(org, api, repoName, branch, ws).trace)
  {
    if ws != [] {
      WorkflowsRunEvents(org, api, repoName, branch, ws[..|ws| - 1]);
      WorkflowListsPullsIff(org, api, repoName, branch, ws[|ws| - 1]);
      var mid := WorkflowsRun(org, api, repoName, branch, ws[..|ws| - 1]);
      if mid.failure.None? {
        WorkflowEventsAppend(mid.trace, WorkflowRun(org, api, repoName, branch, ws[|ws| - 1]).trace);
      }
    }
  }

  // ---------------------------------------------------------------------
  // Which repositories are visited, in which order

  /** The repositories a trace visits (`get_default_branch` is the first request for each). */
  function Visits(t: seq<Event>): seq<string> {
    if t == [] then []
    else Visits(t[..|t| - 1]) + if t[|t| - 1].GetRepo? then [t[|t| - 1].repoName] else []
  }

  /** The repositories pages a trace requests. */
  function PagesListed(t: seq<Event>): seq<nat> {
    if t == [] then []
    else PagesListed(t[..|t| - 1]) + if t[|t| - 1].ListRepos? then [t[|t| - 1].page] else []
  }

  lemma {:induction false} ProjectionsAppend(a: seq<Event>, b: seq<Event>)
    ensures Visits(a + b) == Visits(a) + Visits(b)
    ensures PagesListed(a + b) == PagesListed(a) + PagesListed(b)
    decreases |b|
  {
    if b == [] {
      assert a + b == a;
    } else {
      assert (a + b)[..|a + b| - 1] == a + b[..|b| - 1];
      ProjectionsAppend(a, b[..|b| - 1]);
    }
  }

  lemma {:induction false} WorkflowEventsVisitNothing(t: seq<Event>)
    requires WorkflowEventsOnly(t)
    ensures Visits(t) == [] && PagesListed(t) == []
  {
    if t != [] {
      var init := t[..|t| - 1];
      assert WorkflowEventsOnly(init) by {
        forall i | 0 <= i < |init|
          ensures init[i].FetchFile? || init[i].ListPulls? || init[i].ReportForkPr?
        {
          assert init[i] == t[i];
        }
      }
      WorkflowEventsVisitNothing(init);
      assert t[|t| - 1].FetchFile? || t[|t| - 1].ListPulls? || t[|t| - 1].ReportForkPr?;
    }
  }

  /** The names of the selected repositories among `rs`, in order. */
  function SelectedNames(specificRepo: string, rs: seq<RepoRecord>): seq<string> {
    if rs == [] then []
    else
      var last := rs[|rs| - 1];
      SelectedNames(specificRepo, rs[..|rs| - 1]) + if Selected(specificRepo, last) then [last.name] else []
  }

  /**
   * A repository that `specific_repo` excludes causes no request at all; a
   * selected one is visited once, first with `get_default_branch`, and when
   * its workflows listing fails nothing more is requested for it.
   */
  lemma RepoRunVisits(org: string, specificRepo: string, api: Api, repo: RepoRecord)
    ensures var t := RepoRun(org, specificRepo, api, repo).trace;
      && (t == [] <==> !Selected(specificRepo, repo))
      && Visits(t) == (if Selected(specificRepo, repo) then [repo.name] else [])
      && PagesListed(t) == []
    ensures Selected(specificRepo, repo) && api.workflows(repo.name).status != 200 ==>
      RepoRun(org, specificRepo, api, repo) == Run([GetRepo(repo.name), ListWorkflows(repo.name)], None)
  {
    if Selected(specificRepo, repo) {
      var head := [GetRepo(repo.name), ListWorkflows(repo.name)];
      assert head[..1] == [GetRepo(repo.name)] && head[..1][..0] == [];
      assert Visits(head[..1]) == [repo.name];
      assert PagesListed(head[..1]) == PagesListed([]) + [];
      assert Visits(head) == [repo.name] && PagesListed(head) == [];
      var resp := api.workflows(repo.name);
      if resp.status == 200 {
        var branch := GetDefaultBranch(api.repoInfo(repo.name));
        var w := WorkflowsRun(org, api, repo.name, branch, resp.workflows);
        WorkflowsRunEvents(org, api, repo.name, branch, resp.workflows);
        WorkflowEventsVisitNothing(w.trace);
        ProjectionsAppend(head, w.trace);
      }
    }
  }

  /** Without an exception, the walk over a page's repositories visits exactly the selected ones, in the page's order, and requests no page. */
  lemma {:induction false} ReposRunVisits(org: string, specificRepo: string, api: Api, rs: seq<RepoRecord>)
    ensures PagesListed(ReposRun(org, specificRepo, api, rs).trace) == []
    ensures ReposRun(org, specificRepo, api, rs).failure.None? ==>
      Visits(ReposRun(org, specificRepo, api, rs).trace) == SelectedNames(specificRepo, rs)
  {
    if rs != [] {
      var init, last := rs[..|rs| - 1], rs[|rs| - 1];
      ReposRunVisits(org, specificRepo, api, init);
      RepoRunVisits(org, specificRepo, api, last);
      var mid := ReposRun(org, specificRepo, api, init);
      if mid.failure.None? {
        ProjectionsAppend(mid.trace, RepoRun(org, specificRepo, api, last).trace);
      }
    }
  }

  predicate NamesInLowerOrder(names: seq<string>) {
    forall i, j :: 0 <= i < j < |names| ==> LexLe(Lower(names[i]), Lower(names[j]))
  }

  /** Filtering a sorted list keeps it sorted, and keeps only names of its repositories. */
  lemma {:induction false} SelectedNamesSorted(specificRepo: string, rs: seq<RepoRecord>)
    requires SortedByLowerName(rs)
    ensures NamesInLowerOrder(SelectedNames(specificRepo, rs))
    ensures forall n :: n in SelectedNames(specificRepo, rs) ==> exists k :: 0 <= k < |rs| && rs[k].name == n
  {
    if rs != [] {
      var init, last := rs[..|rs| - 1], rs[|rs| - 1];
      assert SortedByLowerName(init) by {
        assert forall i :: 0 <= i < |init| ==> init[i] == rs[i];
      }
      SelectedNamesSorted(specificRepo, init);
      var before := SelectedNames(specificRepo, init);
      var names := SelectedNames(specificRepo, rs);
      forall n | n in names
        ensures exists k :: 0 <= k < |rs| && rs[k].name == n
      {
        if n in before {
          var k :| 0 <= k < |init| && init[k].name == n;
          assert rs[k].name == n;
        } else {
          assert rs[|rs| - 1].name == n;
        }
      }
      forall i, j | 0 <= i < j < |names|
        ensures LexLe(Lower(names[i]), Lower(names[j]))
      {
        if j >= |before| {
          assert names[i] == before[i] && before[i] in before;
          var k :| 0 <= k < |init| && init[k].name == before[i];
          assert rs[k] == init[k];
          assert j == |before| && names[j] == last.name;
          assert LexLe(SortKey(rs[k]), SortKey(rs[|rs| - 1]));
          assert LexLe(Lower(names[i]), Lower(names[j]));
        } else {
          assert names[i] == before[i] && names[j] == before[j];
          assert LexLe(Lower(before[i]), Lower(before[j]));
        }
      }
    }
  }

  /**
   * Within a page, selected repositories are visited in ascending order of
   * lower-cased name, each once, and excluded ones not at all.
   */
  lemma PageVisitsInNameOrder(org: string, specificRepo: string, api: Api, page: seq<RepoRecord>)
    requires ReposRun(org, specificRepo, api, SortByLowerName(page)).failure.None?
    ensures var visits := Visits(ReposRun(org, specificRepo, api, SortByLowerName(page)).trace);
      && visits == SelectedNames(specificRepo, SortByLowerName(page))
      && NamesInLowerOrder(visits)
      && (forall n :: n in visits ==> exists r :: r in page && r.name == n && Selected(specificRepo, r))
  {
    var sorted := SortByLowerName(page);
    SortByLowerNameSorts(page);
    ReposRunVisits(org, specificRepo, api, sorted);
    SelectedNamesSorted(specificRepo, sorted);
    SelectedNamesAreSelected(specificRepo, sorted);
    forall n | n in SelectedNames(specificRepo, sorted)
      ensures exists r :: r in page && r.name == n && Selected(specificRepo, r)
    {
      var k :| 0 <= k < |sorted| && sorted[k].name == n && Selected(specificRepo, sorted[k]);
      assert sorted[k] in multiset(sorted);
    }
  }

  lemma {:induction false} SelectedNamesAreSelected(specificRepo: string, rs: seq<RepoRecord>)
    ensures forall n :: n in SelectedNames(specificRepo, rs) ==>
      exists k :: 0 <= k < |rs| && rs[k].name == n && Selected(specificRepo, rs[k])
  {
    if rs != [] {
      var init := rs[..|rs| - 1];
      SelectedNamesAreSelected(specificRepo, init);
      forall n | n in SelectedNames(specificRepo, rs)
        ensures exists k :: 0 <= k < |rs| && rs[k].name == n && Selected(specificRepo, rs[k])
      {
        if n in SelectedNames(specificRepo, init) {
          var k :| 0 <= k < |init| && init[k].name == n && Selected(specificRepo, init[k]);
          assert rs[k] == init[k];
        }
      }
    }
  }

  // ---------------------------------------------------------------------
  // Which pages are requested

  /** Pages `from` through `to`. */
  function PageRange(from: nat, to: nat): seq<nat>
    decreases to + 1 - from
  {
    if from > to then [] else [from] + PageRange(from + 1, to)
  }

  /** Page `page` has status 200 and some repositories, and their walk does not raise: the loop goes on to the next page. */
  predicate PageContinues(walk: seq<RepoRecord> -> Run, pages: seq<ReposPage>, page: nat) {
    var p := ReposPageAt(pages, page);
    p.status == 200 && p.repos != [] && walk(p.repos).failure.None?
  }

  /** The walk of a page requests no repositories page of its own. */
  ghost predicate ListsNoPages(walk: seq<RepoRecord> -> Run) {
    forall rs :: PagesListed(walk(rs).trace) == []
  }

  lemma {:induction false} RunFromListsPages(walk: seq<RepoRecord> -> Run, pages: seq<ReposPage>, from: nat, k: nat)
    requires ListsNoPages(walk)
    requires 1 <= from <= k
    requires forall i :: from <= i < k ==> PageContinues(walk, pages, i)
    requires ReposPageAt(pages, k).status != 200 || ReposPageAt(pages, k).repos == []
    ensures PagesListed(RunFrom(walk, pages, from).trace) == PageRange(from, k)
    ensures RunFrom(walk, pages, from).failure ==
      if ReposPageAt(pages, k).status != 200 then Some(ReposStatus(ReposPageAt(pages, k).status)) else None
    decreases k - from
  {
    if from < k {
      RunFromListsPages(walk, pages, from + 1, k);
      RunFromContinues(walk, pages, from);
      assert PageRange(from, k) == [from] + PageRange(from + 1, k);
    } else {
      RunFromStops(walk, pages, from);
    }
  }

  lemma PagesListedStep(page: nat, r: seq<Event>, rest: seq<Event>)
    requires PagesListed(r) == []
    ensures PagesListed([ListRepos(page)] + r + rest) == [page] + PagesListed(rest)
  {
    var one := [ListRepos(page)];
    assert one[..0] == [];
    ProjectionsAppend(one, r);
    ProjectionsAppend(one + r, rest);
  }

  /** A page that continues the loop adds its own number to the pages requested after it. */
  lemma RunFromContinues(walk: seq<RepoRecord> -> Run, pages: seq<ReposPage>, page: nat)
    requires ListsNoPages(walk)
    requires PageContinues(walk, pages, page)
    ensures var rest := RunFrom(walk, pages, page + 1);
      && PagesListed(RunFrom(walk, pages, page).trace) == [page] + PagesListed(rest.trace)
      && RunFrom(walk, pages, page).failure == rest.failure
  {
    var r := walk(ReposPageAt(pages, page).repos);
    var rest := RunFrom(walk, pages, page + 1);
    assert RunFrom(walk, pages, page) == Run([ListRepos(page)] + r.trace + rest.trace, rest.failure);
    PagesListedStep(page, r.trace, rest.trace);
  }

  lemma RunFromStops(walk: seq<RepoRecord> -> Run, pages: seq<ReposPage>, page: nat)
    requires ReposPageAt(pages, page).status != 200 || ReposPageAt(pages, page).repos == []
    ensures PagesListed(RunFrom(walk, pages, page).trace) == PageRange(page, page)
    ensures RunFrom(walk, pages, page).failure ==
      if ReposPageAt(pages, page).status != 200 then Some(ReposStatus(ReposPageAt(pages, page).status)) else None
  {
    var one := [ListRepos(page)];
    assert one[..0] == [];
    assert PageRange(page + 1, page) == [];
    assert RunFrom(walk, pages, page).trace == one;
  }

  /** Visiting repositories requests no repositories page. */
  lemma PageWalkListsNoPages(org: string, specificRepo: string, api: Api)
    ensures ListsNoPages(PageWalk(org, specificRepo, api))
  {
    forall rs {
      ReposRunVisits(org, specificRepo, api, SortByLowerName(rs));
    }
  }

  /**
   * Let page `k` be the first page that fails or is empty, with no exception
   * on the pages before it. Then pages 1 to `k` are requested in order and no
   * other, and the walk fails with page `k`'s status exactly when that status
   * is not 200. There is no `next` check: only an empty page ends the loop.
   */
  lemma ForkPrRunListsPages(org: string, specificRepo: string, api: Api, pages: seq<ReposPage>, k: nat)
    requires 1 <= k
    requires forall i :: 1 <= i < k ==> PageContinues(PageWalk(org, specificRepo, api), pages, i)
    requires ReposPageAt(pages, k).status != 200 || ReposPageAt(pages, k).repos == []
    ensures PagesListed(ForkPrRun(org, specificRepo, api, pages).trace) == PageRange(1, k)
    ensures ForkPrRun(org, specificRepo, api, pages).failure.Some? <==> ReposPageAt(pages, k).status != 200
  {
    PageWalkListsNoPages(org, specificRepo, api);
    RunFromListsPages(PageWalk(org, specificRepo, api), pages, 1, k);
  }
}
