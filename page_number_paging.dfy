/**
 * The page-number paginator over `GET /orgs/{org}/repos?per_page=100&page=N`
 * that collects repository names, as written in `get_github_repositories`
 * (CircleCI jobs-env script) and, identically, in `get_repos` (GitHub
 * artifacts script).
 *
 * Each response is supplied as data. Page numbers start at 1; a page beyond
 * the supplied ones answers 200 with an empty list, as the API does past the
 * last page.
 */
module PageNumberPaging {

  /** One response: whether `raise_for_status` passes, the names of the listed repositories, and whether `resp.links` has `next`. */
  datatype NamePage = NamePage(ok: bool, names: seq<string>, hasNext: bool)

  /** What the paginator produces: the names, or the `HTTPError` raised for page `page`. */
  datatype Listing = Listed(names: seq<string>) | HttpError(page: nat)

  /** The response to the request for page `page`. */
  function PageAt(pages: seq<NamePage>, page: nat): (p: NamePage)
    ensures page == 0 || page > |pages| ==> p == NamePage(true, [], false)
  {
    if 1 <= page <= |pages| then pages[page - 1] else NamePage(true, [], false)
  }

  /** Names collected before `r`'s, kept in front of them; an error wins. */
  function Prepend(names: seq<string>, r: Listing): Listing {
    match r
    case Listed(rest) => Listed(names + rest)
    case HttpError(k) => HttpError(k)
  }

  lemma PrependTwice(a: seq<string>, b: seq<string>, r: Listing)
    ensures Prepend(a, Prepend(b, r)) == Prepend(a + b, r)
  {
    if r.Listed? {
      assert a + (b + r.names) == a + b + r.names;
    }
  }

  /** A page after which the loop requests the next one. */
  predicate Continues(p: NamePage) {
    p.ok && p.names != [] && p.hasNext
  }

  /** The outcome of running the loop from page `page` on. */
  function CollectFrom(pages: seq<NamePage>, page: nat): Listing
    requires page >= 1
    decreases if page <= |pages| then |pages| + 1 - page else 0
  {
    var p := PageAt(pages, page);
    if !p.ok then HttpError(page)
    else if p.names == [] then Listed([])
    else if !p.hasNext then Listed(p.names)
    else Prepend(p.names, CollectFrom(pages, page + 1))
  }

  /** The names of pages `from` through `to`, in page order. */
  function NamesBetween(pages: seq<NamePage>, from: nat, to: nat): seq<string>
    decreases to + 1 - from
  {
    if from > to then [] else PageAt(pages, from).names + NamesBetween(pages, from + 1, to)
  }

  /**
   * `get_github_repositories(org)` / `get_repos(org)`: request pages 1, 2, ...
   * raising on an error status, stopping after an empty page or after a page
   * without a `next` link, and extending the result with each page's names.
   */
  method GetRepositories(pages: seq<NamePage>) returns (r: Listing)
    ensures r == CollectFrom(pages, 1)
  {
    var repos: seq<string> := [];
    var page: nat := 1;
    while true
      invariant 1 <= page <= |pages| + 1
      invariant CollectFrom(pages, 1) == Prepend(repos, CollectFrom(pages, page))
      decreases |pages| + 1 - page
    {
      var resp := PageAt(pages, page);
      if !resp.ok {
        assert CollectFrom(pages, page) == HttpError(page);
        return HttpError(page);
      }
      if resp.names == [] {
        assert CollectFrom(pages, page) == Listed([]) && repos + [] == repos;
        break;
      }
      ghost var before := repos;
      repos := repos + resp.names;
      if !resp.hasNext {
        assert CollectFrom(pages, page) == Listed(resp.names);
        break;
      }
      assert CollectFrom(pages, page) == Prepend(resp.names, CollectFrom(pages, page + 1));
      PrependTwice(before, resp.names, CollectFrom(pages, page + 1));
      page := page + 1;
    }
    return Listed(repos);
  }

  /**
   * Let page `k` be the first page that does not continue the walk. Then the
   * result is the names of pages 1 to `k` in order, or the error of page `k`
   * when its status fails. Page `k` is empty, lacks a `next` link, or failed.
   */
  lemma CollectsPagesUpToStop(pages: seq<NamePage>, k: nat)
    requires 1 <= k <= |pages| + 1
    requires forall i :: 1 <= i < k ==> Continues(PageAt(pages, i))
    requires !Continues(PageAt(pages, k))
    ensures CollectFrom(pages, 1) ==
      if PageAt(pages, k).ok then Listed(NamesBetween(pages, 1, k)) else HttpError(k)
  {
    CollectsFrom(pages, 1, k);
  }

  lemma {:induction false} CollectsFrom(pages: seq<NamePage>, from: nat, k: nat)
    requires 1 <= from <= k <= |pages| + 1
    requires forall i :: from <= i < k ==> Continues(PageAt(pages, i))
    requires !Continues(PageAt(pages, k))
    ensures CollectFrom(pages, from) ==
      if PageAt(pages, k).ok then Listed(NamesBetween(pages, from, k)) else HttpError(k)
    decreases k - from
  {
    assert NamesBetween(pages, k + 1, k) == [];
    if from < k {
      assert Continues(PageAt(pages, from));
      CollectsFrom(pages, from + 1, k);
    } else {
      var p := PageAt(pages, k);
      assert p.ok && p.names == [] ==> NamesBetween(pages, k, k) == [];
    }
  }

  /** When every supplied page links to a next one, the walk ends at the empty page past them and returns all their names. */
  lemma CollectsAllLinkedPages(pages: seq<NamePage>)
    requires forall i :: 0 <= i < |pages| ==> Continues(pages[i])
    ensures CollectFrom(pages, 1) == Listed(NamesBetween(pages, 1, |pages| + 1))
  {
    forall i | 1 <= i < |pages| + 1
      ensures Continues(PageAt(pages, i))
    {
      assert PageAt(pages, i) == pages[i - 1];
    }
    CollectsPagesUpToStop(pages, |pages| + 1);
  }
}
