/** The walk over the provider's pages. */
module Paginator {
  import opened Wrappers
  import opened Events

  const MAX_PAGES := 100

  datatype Page = Page(results: seq<ProviderEvent>, next: Option<string>)

  /** How a walk ends; `Cancelled` is the consumer's task being cancelled. */
  datatype End = Complete | TooManyPages | ForeignHost | FetchFailed | Cancelled

  /** What the provider gives for the fetches of one walk, in order: a page, or a failure.
      Nothing relates these pages to their links, so any chain is covered, cyclic ones too. */
  type Pages = nat -> Option<Page>

  function HasNext(page: Page): bool {
    page.next.Some? && page.next.value != ""
  }

  /** Page `i` arrives and leads to another page on the base host. */
  predicate Linked(pages: Pages, netloc: string -> string, baseUrl: string, i: nat) {
    && pages(i).Some?
    && HasNext(pages(i).value)
    && netloc(pages(i).value.next.value) == netloc(baseUrl)
  }

  /** Page `i` arrives and is the last one. */
  predicate Last(pages: Pages, i: nat) {
    pages(i).Some? && !HasNext(pages(i).value)
  }

  function AllResults(pages: Pages, n: nat): seq<ProviderEvent> {
    if n == 0 then []
    else AllResults(pages, n - 1) + if pages(n - 1).Some? then pages(n - 1).value.results else []
  }

  /** Each page's events come after those of the pages before it, and stay there. */
  lemma {:induction false} ResultsInOrder(pages: Pages, i: nat, n: nat)
    requires i < n && pages(i).Some?
    ensures AllResults(pages, i) + pages(i).value.results <= AllResults(pages, n)
    decreases n
  {
    if i < n - 1 {
      ResultsInOrder(pages, i, n - 1);
    }
  }

  /** There is nothing else: every event is at its place on one of the pages. */
  lemma {:induction false} ResultFromPage(pages: Pages, n: nat, p: nat) returns (i: nat, k: nat)
    requires p < |AllResults(pages, n)|
    ensures i < n && pages(i).Some? && k < |pages(i).value.results|
    ensures p == |AllResults(pages, i)| + k && AllResults(pages, n)[p] == pages(i).value.results[k]
    decreases n
  {
    if n > 0 && p < |AllResults(pages, n - 1)| {
      i, k := ResultFromPage(pages, n - 1, p);
    } else {
      i, k := n - 1, p - |AllResults(pages, n - 1)|;
    }
  }

  /** The chain consists of `n` pages, all on the base host. */
  ghost predicate ChainOf(pages: Pages, netloc: string -> string, baseUrl: string, n: nat) {
    n >= 1 && (forall i :: 0 <= i < n - 1 ==> Linked(pages, netloc, baseUrl, i)) && Last(pages, n - 1)
  }

  /** `n` pages were consumed, each but the last leading to the next, and `end` is what
      stopped the walk there. */
  ghost predicate WalkEnds(pages: Pages, netloc: string -> string, baseUrl: string, n: nat, end: End) {
    && (forall i :: 0 <= i < n - 1 ==> Linked(pages, netloc, baseUrl, i))
    && match end
       case Complete => n >= 1 && Last(pages, n - 1)
       case TooManyPages => n == MAX_PAGES && pages(n - 1).Some? && HasNext(pages(n - 1).value)
       case ForeignHost =>
         1 <= n < MAX_PAGES && pages(n - 1).Some? && HasNext(pages(n - 1).value) &&
           !Linked(pages, netloc, baseUrl, n - 1)
       case FetchFailed => (n == 0 || Linked(pages, netloc, baseUrl, n - 1)) && pages(n).None?
       case Cancelled => false
  }

  /** The link on page `i` may be followed: it is there, not empty, and on the base host. */
  ghost predicate Follows(pages: Pages, netloc: string -> string, baseUrl: string, i: nat) {
    && pages(i).Some? && pages(i).value.next.Some? && pages(i).value.next.value != ""
    && netloc(pages(i).value.next.value) == netloc(baseUrl)
  }

  /** The results of all pages that arrived, in order, and the reason for stopping. At
      most `MAX_PAGES` pages are ever asked for. */
  method IterAllEvents(pages: Pages, netloc: string -> string, baseUrl: string)
    returns (events: seq<ProviderEvent>, end: End, n: nat, fetches: nat)
    ensures fetches <= 100
    ensures fetches == if end.FetchFailed? then n + 1 else n
    ensures events == AllResults(pages, n)
    ensures WalkEnds(pages, netloc, baseUrl, n, end)
    ensures forall i :: 0 <= i < fetches - 1 ==> Follows(pages, netloc, baseUrl, i)
    ensures end.Complete? ==>
              n >= 1 && pages(n - 1).Some? && (pages(n - 1).value.next == None || pages(n - 1).value.next == Some(""))
    ensures !end.Complete? && !end.FetchFailed? ==>
              n >= 1 && pages(n - 1).Some? && pages(n - 1).value.next.Some? && pages(n - 1).value.next.value != ""
    ensures end.ForeignHost? ==> netloc(pages(n - 1).value.next.value) != netloc(baseUrl)
    ensures end.FetchFailed? ==> pages(n).None?
  {
    if pages(0).None? {
      return [], FetchFailed, 0, 1;
    }
    var page := pages(0).value;
    events := page.results;
    assert AllResults(pages, 1) == AllResults(pages, 0) + page.results == events;
    var pagesSeen := 1;
    while HasNext(page)
      invariant 1 <= pagesSeen <= MAX_PAGES
      invariant pages(pagesSeen - 1) == Some(page)
      invariant events == AllResults(pages, pagesSeen)
      invariant forall i :: 0 <= i < pagesSeen - 1 ==> Linked(pages, netloc, baseUrl, i)
      invariant forall i :: 0 <= i < pagesSeen - 1 ==> Follows(pages, netloc, baseUrl, i)
      decreases MAX_PAGES - pagesSeen
    {
      if pagesSeen >= MAX_PAGES {
        return events, TooManyPages, pagesSeen, pagesSeen;
      }
      if netloc(baseUrl) != netloc(page.next.value) {
        return events, ForeignHost, pagesSeen, pagesSeen;
      }
      assert Linked(pages, netloc, baseUrl, pagesSeen - 1);
      if pages(pagesSeen).None? {
        return events, FetchFailed, pagesSeen, pagesSeen + 1;
      }
      page := pages(pagesSeen).value;
      events := events + page.results;
      pagesSeen := pagesSeen + 1;
    }
    return events, Complete, pagesSeen, pagesSeen;
  }

  /** The walk is complete exactly for chains of at most `MAX_PAGES` pages on the base
      host, and then it covered the whole chain. */
  lemma CompleteIff(pages: Pages, netloc: string -> string, baseUrl: string, n: nat, end: End)
    requires n <= MAX_PAGES && WalkEnds(pages, netloc, baseUrl, n, end)
    ensures end.Complete? ==> ChainOf(pages, netloc, baseUrl, n)
    ensures (exists m :: 1 <= m <= 100 && ChainOf(pages, netloc, baseUrl, m)) ==> end.Complete?
  {
    if m :| 1 <= m <= 100 && ChainOf(pages, netloc, baseUrl, m) {
      assert n > m ==> Linked(pages, netloc, baseUrl, m - 1);
      assert 1 <= n < m ==> Linked(pages, netloc, baseUrl, n - 1);
      assert n < m - 1 ==> Linked(pages, netloc, baseUrl, n);
    }
  }

  /** A chain that never ends on the base host is cut off. */
  lemma EndlessChainCut(pages: Pages, netloc: string -> string, baseUrl: string, n: nat, end: End)
    requires forall i: nat :: Linked(pages, netloc, baseUrl, i)
    requires n <= MAX_PAGES && WalkEnds(pages, netloc, baseUrl, n, end)
    ensures end.TooManyPages? && n == 100
  {
    assert Linked(pages, netloc, baseUrl, n);
    assert n >= 1 ==> Linked(pages, netloc, baseUrl, n - 1);
  }
}
