/**
 * The GitHub artifacts downloader: list the organisation's repositories by
 * page number, list each repository's Actions artifacts by following `next`
 * links, and download every artifact to
 * `DownloadedGitArtifacts/{repo}-{id}.zip`, reporting and skipping a failed
 * download.
 *
 * Responses are data: the repository pages, and for each repository name
 * the chain of artifact-list responses. Each artifact record says whether
 * its download request succeeds; the bytes are not modelled.
 */
module GithubArtifacts {
  import opened Wrappers
  import opened Text
  import opened LinkPaging
  import PageNumberPaging

  /** An artifact record: `id`, `archive_download_url`, and whether downloading it passes `raise_for_status`. */
  datatype Artifact = Artifact(id: int, archiveDownloadUrl: string, downloadOk: bool)

  /** What the script does, in order: request a repository's artifact list, or attempt one download (the saved path, or nothing on failure). */
  datatype Event =
    | ListArtifacts(repo: string)
    | Download(repo: string, id: int, url: string, savedTo: Option<string>)

  /** How `main` ends: `get_repos` raised for page `page`, or the walk ran and did `trace`. */
  datatype RunOutcome = Crashed(page: nat) | Ran(trace: seq<Event>)

  const DownloadDir := "DownloadedGitArtifacts"

  /** `f"{repo_name}-{artifact['id']}.zip"` */
  function ArtifactFileName(repo: string, id: int): string {
    repo + "-" + IntToDecimal(id) + ".zip"
  }

  /** Where an artifact is saved: the download directory joined with its file name. */
  function ArtifactPath(repo: string, id: int): (path: string)
    ensures repo == [] || repo[0] != '/' ==> path == DownloadDir + "/" + ArtifactFileName(repo, id)
  {
    var name := ArtifactFileName(repo, id);
    assert name[0] == if repo == [] then '-' else repo[0];
    PathJoin(DownloadDir, name)
  }

  /** Two artifacts with non-negative ids get the same file name only if they are the same artifact of the same repository, so no download overwrites another's file. */
  lemma ArtifactFileNameInjective(repo1: string, id1: int, repo2: string, id2: int)
    requires id1 >= 0 && id2 >= 0
    requires ArtifactFileName(repo1, id1) == ArtifactFileName(repo2, id2)
    ensures repo1 == repo2 && id1 == id2
  {
    var d1, d2 := NatToDecimal(id1), NatToDecimal(id2);
    var f1, f2 := repo1 + "-" + d1, repo2 + "-" + d2;
    assert f1 == ArtifactFileName(repo1, id1)[..|f1|];
    assert f2 == ArtifactFileName(repo2, id2)[..|f2|];
    assert f1 == f2;
    assert NoChar(d1, '-') && NoChar(d2, '-');
    SplitAtLast(repo1, d1, repo2, d2, '-');
    NatToDecimalInjective(id1, id2);
  }

  /** `download_artifact`: one request; on success the file is written at ArtifactPath, on `HTTPError` the failure is reported. */
  function DownloadArtifact(artifact: Artifact, repo: string): (e: Event)
    ensures e.Download? && e.repo == repo && e.id == artifact.id && e.url == artifact.archiveDownloadUrl
    ensures e.savedTo == if artifact.downloadOk then Some(ArtifactPath(repo, artifact.id)) else None
  {
    Download(repo, artifact.id, artifact.archiveDownloadUrl,
      if artifact.downloadOk then Some(ArtifactPath(repo, artifact.id)) else None)
  }

  /** The downloads attempted for `artifacts`, one per artifact, in order. */
  function Downloads(repo: string, artifacts: seq<Artifact>): seq<Event> {
    if artifacts == [] then []
    else Downloads(repo, artifacts[..|artifacts| - 1]) + [DownloadArtifact(artifacts[|artifacts| - 1], repo)]
  }

  /** One repository: list its artifacts, then download each (none when the list is empty). */
  function RepoEvents(repo: string, artifactsOf: string -> LinkResponse<Artifact>): seq<Event> {
    [ListArtifacts(repo)] + Downloads(repo, Collected(artifactsOf(repo)))
  }

  /** The repositories in order. */
  function ReposEvents(repos: seq<string>, artifactsOf: string -> LinkResponse<Artifact>): seq<Event> {
    if repos == [] then []
    else ReposEvents(repos[..|repos| - 1], artifactsOf) + RepoEvents(repos[|repos| - 1], artifactsOf)
  }

  /** What `main` does: nothing after `get_repos` raises, otherwise every listed repository in turn. */
  function MainOutcome(repoPages: seq<PageNumberPaging.NamePage>, artifactsOf: string -> LinkResponse<Artifact>): RunOutcome {
    match PageNumberPaging.CollectFrom(repoPages, 1)
    case HttpError(k) => Crashed(k)
    case Listed(repos) => Ran(ReposEvents(repos, artifactsOf))
  }

  method DownloadAll(repo: string, artifacts: seq<Artifact>) returns (trace: seq<Event>)
    ensures trace == Downloads(repo, artifacts)
  {
    trace := [];
    for i := 0 to |artifacts|
      invariant trace == Downloads(repo, artifacts[..i])
    {
      assert artifacts[..i + 1][..i] == artifacts[..i];
      trace := trace + [DownloadArtifact(artifacts[i], repo)];
    }
    assert artifacts[..|artifacts|] == artifacts;
  }

  /**
   * `main`: get the repositories (an error propagates and ends the run),
   * stop when there are none, and for each repository get its artifacts,
   * skip it when there are none, and download each artifact.
   */
  method RunMain(repoPages: seq<PageNumberPaging.NamePage>, artifactsOf: string -> LinkResponse<Artifact>)
    returns (outcome: RunOutcome)
    ensures outcome == MainOutcome(repoPages, artifactsOf)
  {
    var listing := PageNumberPaging.GetRepositories(repoPages);
    if listing.HttpError? {
      return Crashed(listing.page);
    }
    var repos := listing.names;
    var trace: seq<Event> := [];
    if repos == [] {
      return Ran(trace);
    }
    for i := 0 to |repos|
      invariant trace == ReposEvents(repos[..i], artifactsOf)
    {
      assert repos[..i + 1][..i] == repos[..i];
      var events := VisitRepo(repos[i], artifactsOf);
      trace := trace + events;
    }
    assert repos[..|repos|] == repos;
    return Ran(trace);
  }

  /** The body of the repository loop: list the artifacts, then download them unless there are none. */
  method VisitRepo(repo: string, artifactsOf: string -> LinkResponse<Artifact>) returns (events: seq<Event>)
    ensures events == RepoEvents(repo, artifactsOf)
  {
    events := [ListArtifacts(repo)];
    var artifacts := FollowNextLinks(artifactsOf(repo));
    if artifacts == [] {
      return;
    }
    var downloads := DownloadAll(repo, artifacts);
    events := events + downloads;
  }

  /**
   * Every artifact is attempted exactly once, in list order: a failed
   * download does not stop the ones after it.
   */
  lemma {:induction false} DownloadsAttemptEach(repo: string, artifacts: seq<Artifact>)
    ensures |Downloads(repo, artifacts)| == |artifacts|
    ensures forall i :: 0 <= i < |artifacts| ==> Downloads(repo, artifacts)[i] == DownloadArtifact(artifacts[i], repo)
  {
    if artifacts != [] {
      var init := artifacts[..|artifacts| - 1];
      DownloadsAttemptEach(repo, init);
    }
  }

  /** A repository whose artifact listing is empty gets only its listing request and no download. */
  lemma NoArtifactsNoDownloads(repo: string, artifactsOf: string -> LinkResponse<Artifact>)
    requires Collected(artifactsOf(repo)) == []
    ensures RepoEvents(repo, artifactsOf) == [ListArtifacts(repo)]
  {
  }

  /** With no repositories listed, no artifact request is made. */
  lemma NoReposNoRequests(repoPages: seq<PageNumberPaging.NamePage>, artifactsOf: string -> LinkResponse<Artifact>)
    requires PageNumberPaging.CollectFrom(repoPages, 1) == PageNumberPaging.Listed([])
    ensures MainOutcome(repoPages, artifactsOf) == Ran([])
  {
  }

  /** The requests of a run: one artifact listing per repository, in repository order. */
  function Listings(trace: seq<Event>): seq<string> {
    if trace == [] then []
    else Listings(trace[..|trace| - 1]) + (if trace[|trace| - 1].ListArtifacts? then [trace[|trace| - 1].repo] else [])
  }

  lemma {:induction false} ListingsAppend(a: seq<Event>, b: seq<Event>)
    ensures Listings(a + b) == Listings(a) + Listings(b)
    decreases |b|
  {
    if b == [] {
      assert a + b == a;
    } else {
      assert (a + b)[..|a + b| - 1] == a + b[..|b| - 1];
      ListingsAppend(a, b[..|b| - 1]);
    }
  }

  lemma {:induction false} DownloadsListNothing(repo: string, artifacts: seq<Artifact>)
    ensures Listings(Downloads(repo, artifacts)) == []
  {
    if artifacts != [] {
      var init := artifacts[..|artifacts| - 1];
      DownloadsListNothing(repo, init);
      ListingsAppend(Downloads(repo, init), [DownloadArtifact(artifacts[|artifacts| - 1], repo)]);
    }
  }

  /** Each listed repository's artifacts are requested exactly once, in the order `get_repos` returned them. */
  lemma {:induction false} EachRepoListedOnce(repos: seq<string>, artifactsOf: string -> LinkResponse<Artifact>)
    ensures Listings(ReposEvents(repos, artifactsOf)) == repos
  {
    if repos != [] {
      var init, last := repos[..|repos| - 1], repos[|repos| - 1];
      EachRepoListedOnce(init, artifactsOf);
      ListingsAppend(ReposEvents(init, artifactsOf), RepoEvents(last, artifactsOf));
      ListingsAppend([ListArtifacts(last)], Downloads(last, Collected(artifactsOf(last))));
      DownloadsListNothing(last, Collected(artifactsOf(last)));
      assert Listings([ListArtifacts(last)]) == [last] by {
        assert [ListArtifacts(last)][..0] == [];
      }
      assert repos == init + [last];
    }
  }
}
