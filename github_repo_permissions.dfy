/**
 * The repository permissions report: list every repository of the
 * organisation by following `next` links, then print one access level per
 * repository from its `permissions` flags, highest first.
 */
module GithubRepoPermissions {
  import opened LinkPaging

  /** The `permissions` object of a repository record. */
  datatype Permissions = Permissions(admin: bool, push: bool, pull: bool)

  /** A repository record, reduced to the two fields the report reads. */
  datatype Repo = Repo(name: string, permissions: Permissions)

  /** The access levels the report prints; `NoAccess` is printed as "None". */
  datatype AccessLevel = Admin | Write | Read | NoAccess

  /** The if/elif chain: `admin`, then `push`, then `pull`, else none. */
  function Level(p: Permissions): (l: AccessLevel)
    ensures l == Admin <==> p.admin
    ensures l == Write <==> !p.admin && p.push
    ensures l == Read <==> !p.admin && !p.push && p.pull
    ensures l == NoAccess <==> !p.admin && !p.push && !p.pull
  {
    if p.admin then Admin
    else if p.push then Write
    else if p.pull then Read
    else NoAccess
  }

  /** Order of the levels: Admin > Write > Read > None. */
  function Rank(l: AccessLevel): nat {
    match l
    case Admin => 3
    case Write => 2
    case Read => 1
    case NoAccess => 0
  }

  /** The flag that grants each level; every repository has at least no access. */
  predicate Grants(p: Permissions, l: AccessLevel) {
    match l
    case Admin => p.admin
    case Write => p.push
    case Read => p.pull
    case NoAccess => true
  }

  /** The reported level is the highest level some flag grants. */
  lemma LevelIsHighestGranted(p: Permissions, l: AccessLevel)
    ensures Grants(p, Level(p))
    ensures Grants(p, l) ==> Rank(l) <= Rank(Level(p))
    ensures Rank(l) == Rank(Level(p)) ==> l == Level(p)
  {
  }

  /**
   * The script body: one (name, level) line per repository returned by
   * `get_repositories`, in that order.
   */
  method ReportAccessLevels(first: LinkResponse<Repo>) returns (report: seq<(string, AccessLevel)>)
    ensures |report| == |Collected(first)|
    ensures forall i :: 0 <= i < |report| ==>
      report[i] == (Collected(first)[i].name, Level(Collected(first)[i].permissions))
  {
    var repositories := FollowNextLinks(first);
    report := [];
    for i := 0 to |repositories|
      invariant |report| == i
      invariant forall j :: 0 <= j < i ==>
        report[j] == (repositories[j].name, Level(repositories[j].permissions))
    {
      var repo := repositories[i];
      report := report + [(repo.name, Level(repo.permissions))];
    }
  }
}
