/**
 * The single-repository write-access check: one `GET /repos/{full_name}`
 * and a lookup of `permissions.push`, defaulting to false.
 */
module GithubSingleRepoPermissions {
  import opened Wrappers
  import opened Text

  /** The `permissions` object of the response; `push` may be missing. */
  datatype PermissionsObject = PermissionsObject(push: Option<bool>)

  /** The repository response: its status, and its `permissions` object if the JSON has one. */
  datatype RepoResponse = RepoResponse(status: int, permissions: Option<PermissionsObject>)

  const ReposEndpoint := "https://api.github.com/repos/"

  /** `f"https://api.github.com/repos/{repo_full_name}"` */
  function RepoUrl(fullName: string): (url: string)
    ensures StartsWith(url, ReposEndpoint)
    ensures url[|ReposEndpoint|..] == fullName
  {
    ReposEndpoint + fullName
  }

  /** The URL determines the repository it asks about. */
  lemma RepoUrlInjective(a: string, b: string)
    requires RepoUrl(a) == RepoUrl(b)
    ensures a == b
  {
    assert a == RepoUrl(a)[|ReposEndpoint|..];
  }

  /**
   * `check_write_access_to_repo`: false for any status other than 200;
   * otherwise `permissions.get('push', False)` with a missing `permissions`
   * read as `{}`. The API is a function from request URL to response.
   */
  function CheckWriteAccessToRepo(fullName: string, api: string -> RepoResponse): (r: bool)
    ensures var resp := api(RepoUrl(fullName));
      r <==> resp.status == 200 && resp.permissions.Some? && resp.permissions.value.push == Some(true)
  {
    var response := api(RepoUrl(fullName));
    if response.status != 200 then false
    else response.permissions.GetOr(PermissionsObject(None)).push.GetOr(false)
  }

  /** The message `main` prints for the check's result. */
  function Message(hasWriteAccess: bool): (m: string)
    ensures m == "Has write access" <==> hasWriteAccess
  {
    if hasWriteAccess then "Has write access" else "No write access"
  }

  /** `main`: check the named repository and print the message. */
  function WriteAccessMessage(fullName: string, api: string -> RepoResponse): (m: string)
    ensures var resp := api(RepoUrl(fullName));
      m == "Has write access" <==> resp.status == 200 && resp.permissions.Some? && resp.permissions.value.push == Some(true)
    ensures m == "Has write access" || m == "No write access"
  {
    Message(CheckWriteAccessToRepo(fullName, api))
  }
}
