/**
 * The `while url:` paginator that follows `response.links['next']`, as
 * written in `get_repositories` (repository permissions script) and in
 * `get_artifacts` (GitHub artifacts script).
 *
 * The response to following a `next` link is modelled as that link's
 * target, so a chain of responses is a finite value.
 */
module LinkPaging {
  import opened Wrappers

  /** One response: a failing status (`HTTPError`), or a page of items and the response its `next` link leads to. */
  datatype LinkResponse<T> = HttpError | Page(items: seq<T>, next: Option<LinkResponse<T>>)

  /** Items of the responses reached from `r`, in order; an error contributes nothing and ends the walk. */
  function Collected<T>(r: LinkResponse<T>): seq<T>
    decreases r
  {
    match r
    case HttpError => []
    case Page(items, next) =>
      match next
      case None => items
      case Some(n) => items + Collected(n)
  }

  function CollectedFrom<T>(url: Option<LinkResponse<T>>): seq<T> {
    match url
    case None => []
    case Some(r) => Collected(r)
  }

  /**
   * Request the URL, extend the list with the page's items and move to the
   * `next` URL until there is none; an `HTTPError` stops the walk and
   * returns what has been collected.
   */
  method FollowNextLinks<T>(first: LinkResponse<T>) returns (items: seq<T>)
    ensures items == Collected(first)
  {
    items := [];
    var url: Option<LinkResponse<T>> := Some(first);
    while url.Some?
      invariant items + CollectedFrom(url) == Collected(first)
      decreases url
    {
      match url.value
      case HttpError =>
        assert items == Collected(first);
        break;
      case Page(page, next) =>
        items := items + page;
        url := next;
    }
  }

  /** The chain in which `pages` succeed in turn, each linking to the next, and the request after the last one fails when `failsAfter`. */
  function Chain<T>(pages: seq<seq<T>>, failsAfter: bool): (r: LinkResponse<T>)
    requires pages != [] || failsAfter
    ensures pages == [] ==> r == HttpError
    ensures pages != [] ==> r.Page? && r.items == pages[0]
  {
    if pages == [] then HttpError
    else if |pages| == 1 && !failsAfter then Page(pages[0], None)
    else Page(pages[0], Some(Chain(pages[1..], failsAfter)))
  }

  function Flatten<T>(pages: seq<seq<T>>): seq<T> {
    if pages == [] then [] else pages[0] + Flatten(pages[1..])
  }

  /**
   * Following the chain returns the pages' items concatenated in order,
   * whether the chain ends with a page without `next` or with an error; in
   * the second case that is exactly what was collected before the error.
   */
  lemma {:induction false} ChainCollectsPages<T>(pages: seq<seq<T>>, failsAfter: bool)
    requires pages != [] || failsAfter
    ensures Collected(Chain(pages, failsAfter)) == Flatten(pages)
  {
    if pages != [] && !(|pages| == 1 && !failsAfter) {
      ChainCollectsPages(pages[1..], failsAfter);
    }
  }

  /** The successful pages of a chain, in the order they are requested. */
  function PagesOf<T>(r: LinkResponse<T>): seq<seq<T>>
    decreases r
  {
    match r
    case HttpError => []
    case Page(items, next) =>
      match next
      case None => [items]
      case Some(n) => [items] + PagesOf(n)
  }

  /** Whether the walk over `r` ends in an error. */
  predicate EndsInError<T>(r: LinkResponse<T>)
    decreases r
  {
    match r
    case HttpError => true
    case Page(_, next) =>
      match next
      case None => false
      case Some(n) => EndsInError(n)
  }

  /** Every response chain is the chain of its own pages, so ChainCollectsPages covers every input. */
  lemma {:induction false} EveryChainIsAChain<T>(r: LinkResponse<T>)
    ensures PagesOf(r) != [] || EndsInError(r)
    ensures Chain(PagesOf(r), EndsInError(r)) == r
    decreases r
  {
    match r
    case HttpError =>
    case Page(items, next) =>
      match next
      case None =>
      case Some(n) =>
        EveryChainIsAChain(n);
        assert PagesOf(r)[1..] == PagesOf(n);
  }
}
