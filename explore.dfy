/**
 * The paged show browser (ExploreViewModel.swift). A load is split at its
 * `await`: starting it yields the request to send, and the reply arrives
 * later as a separate step applied to whatever the state is then.
 */
module Explore {
  import opened Wrappers
  import opened Concerts
  import opened Shows

  const FailurePrefix := "Failed to load shows: "

  datatype ExploreState = ExploreState(
    shows: seq<ShowPreview>,
    isLoading: bool,
    errorMessage: Option<string>,
    searchQuery: string,
    currentPage: int,
    hasMorePages: bool)

  /** What a load asks the catalog for. */
  datatype Request = Request(query: Option<string>, page: int)

  function Initial(): (s: ExploreState)
    ensures s.shows == [] && !s.isLoading && s.errorMessage.None? && s.currentPage == 1 && s.hasMorePages
  {
    ExploreState([], false, None, "", 1, true)
  }

  /** `loadShows()` up to its `await`: nothing while a load is running. */
  function StartLoad(s: ExploreState): (ExploreState, Option<Request>) {
    if s.isLoading then (s, None)
    else
      (s.(isLoading := true, errorMessage := None),
       Some(Request(if s.searchQuery == [] then None else Some(s.searchQuery), s.currentPage)))
  }

  /** The catalog answered with `concerts`: page 1 replaces the list, later pages append. */
  function LoadSucceeded(s: ExploreState, concerts: seq<Concert>): ExploreState {
    var newShows := PreviewsOf(concerts);
    s.(shows := if s.currentPage == 1 then newShows else s.shows + newShows,
       hasMorePages := newShows != [],
       currentPage := s.currentPage + 1,
       isLoading := false)
  }

  /** The catalog call threw an error described by `description`. */
  function LoadFailed(s: ExploreState, description: string): ExploreState {
    s.(errorMessage := Some(FailurePrefix + description), isLoading := false)
  }

  /** `resetSearch()`. */
  function AfterReset(s: ExploreState): ExploreState {
    s.(shows := [], currentPage := 1, hasMorePages := true)
  }

  /**
   * A load started while one runs changes nothing and asks for nothing;
   * otherwise it marks the state loading, clears the error, and asks for
   * the current page, with no query when the search text is empty.
   */
  lemma StartLoadProperties(s: ExploreState)
    ensures s.isLoading ==> StartLoad(s) == (s, None)
    ensures !s.isLoading ==>
              var (s', req) := StartLoad(s);
              s'.isLoading && s'.errorMessage.None? && s' == s.(isLoading := true, errorMessage := None) &&
              req.Some? && req.value.page == s.currentPage &&
              (req.value.query.None? <==> s.searchQuery == []) &&
              (req.value.query.Some? ==> req.value.query.value == s.searchQuery)
    ensures StartLoad(StartLoad(s).0).1.None?
  {
  }

  /**
   * A successful reply: the new shows replace the list on page 1 and
   * follow the old ones otherwise; more pages exist exactly when the reply
   * was not empty; the page advances by one; the load is over. A failure
   * keeps the list, page and more-pages flag, and records the message.
   */
  lemma LoadOutcomeProperties(s: ExploreState, concerts: seq<Concert>, description: string)
    ensures var r := LoadSucceeded(s, concerts);
            (s.currentPage == 1 ==> r.shows == PreviewsOf(concerts)) &&
            (s.currentPage != 1 ==> r.shows[..|s.shows|] == s.shows && r.shows[|s.shows|..] == PreviewsOf(concerts)) &&
            (r.hasMorePages <==> concerts != []) &&
            r.currentPage == s.currentPage + 1 && !r.isLoading && r.errorMessage == s.errorMessage &&
            r.searchQuery == s.searchQuery
    ensures var r := LoadFailed(s, description);
            r.shows == s.shows && r.currentPage == s.currentPage && r.hasMorePages == s.hasMorePages &&
            !r.isLoading && r.errorMessage == Some(FailurePrefix + description)
  {
    var r := LoadSucceeded(s, concerts);
    if s.currentPage != 1 {
      assert r.shows == s.shows + PreviewsOf(concerts);
    }
  }

  lemma ResetProperties(s: ExploreState)
    ensures AfterReset(s).shows == [] && AfterReset(s).currentPage == 1 && AfterReset(s).hasMorePages
    ensures AfterReset(AfterReset(s)) == AfterReset(s)
    ensures AfterReset(s).searchQuery == s.searchQuery && AfterReset(s).isLoading == s.isLoading
  {
  }

  /** Load each page in `pages` in turn, each one succeeding. */
  function LoadPages(s: ExploreState, pages: seq<seq<Concert>>): ExploreState
    decreases |pages|
  {
    if pages == [] then s
    else
      var (started, _) := StartLoad(s);
      LoadPages(LoadSucceeded(started, pages[0]), pages[1..])
  }

  function Concat(pages: seq<seq<Concert>>): seq<Concert> {
    if pages == [] then [] else pages[0] + Concat(pages[1..])
  }

  /** One successful page after a reset or after earlier pages: its shows follow the old ones. */
  lemma OnePage(s: ExploreState, page: seq<Concert>)
    requires !s.isLoading && s.currentPage >= 1
    requires s.currentPage == 1 ==> s.shows == []
    ensures var next := LoadSucceeded(StartLoad(s).0, page);
            next.shows == s.shows + PreviewsOf(page) && next.currentPage == s.currentPage + 1 &&
            !next.isLoading && (next.hasMorePages <==> page != [])
  {
    if s.currentPage == 1 {
      assert s.shows + PreviewsOf(page) == PreviewsOf(page);
    }
  }

  lemma AppendAssoc(a: seq<ShowPreview>, b: seq<ShowPreview>, c: seq<ShowPreview>)
    ensures (a + b) + c == a + (b + c)
  {
  }

  /** Successive successful pages append their shows in order and advance the page by one each. */
  lemma {:induction false} PagesShows(s: ExploreState, pages: seq<seq<Concert>>)
    requires !s.isLoading && s.currentPage >= 1
    requires s.currentPage == 1 ==> s.shows == []
    ensures var r := LoadPages(s, pages);
            r.shows == s.shows + PreviewsOf(Concat(pages)) &&
            r.currentPage == s.currentPage + |pages| && !r.isLoading
    decreases |pages|
  {
    if pages == [] {
      assert s.shows + PreviewsOf(Concat(pages)) == s.shows;
    } else {
      var rest := pages[1..];
      var next := LoadSucceeded(StartLoad(s).0, pages[0]);
      assert LoadPages(s, pages) == LoadPages(next, rest);
      OnePage(s, pages[0]);
      PagesShows(next, rest);
      assert Concat(pages) == pages[0] + Concat(rest);
      PreviewsOfAppend(pages[0], Concat(rest));
      AppendAssoc(s.shows, PreviewsOf(pages[0]), PreviewsOf(Concat(rest)));
    }
  }

  /** After at least one successful page, more pages are flagged exactly when the last page was not empty. */
  lemma {:induction false} PagesFlag(s: ExploreState, pages: seq<seq<Concert>>)
    requires !s.isLoading && s.currentPage >= 1
    requires s.currentPage == 1 ==> s.shows == []
    requires pages != []
    ensures LoadPages(s, pages).hasMorePages <==> pages[|pages| - 1] != []
    decreases |pages|
  {
    var rest := pages[1..];
    var next := LoadSucceeded(StartLoad(s).0, pages[0]);
    assert LoadPages(s, pages) == LoadPages(next, rest);
    OnePage(s, pages[0]);
    if rest == [] {
      assert LoadPages(next, rest) == next;
    } else {
      PagesFlag(next, rest);
      assert rest[|rest| - 1] == pages[|pages| - 1];
    }
  }

  /**
   * After a reset, successive successful pages leave the pages' shows one
   * after another in order, the page number one past the pages loaded, and
   * more pages flagged exactly when the last page was not empty.
   */
  lemma PagesAccumulate(s: ExploreState, pages: seq<seq<Concert>>)
    requires !s.isLoading && s.currentPage >= 1
    requires s.currentPage == 1 ==> s.shows == []
    ensures var r := LoadPages(s, pages);
            r.shows == s.shows + PreviewsOf(Concat(pages)) &&
            r.currentPage == s.currentPage + |pages| && !r.isLoading &&
            (pages != [] ==> (r.hasMorePages <==> pages[|pages| - 1] != []))
  {
    PagesShows(s, pages);
    if pages != [] {
      PagesFlag(s, pages);
    }
  }

  class ExploreViewModel {
    var shows: seq<ShowPreview>
    var isLoading: bool
    var errorMessage: Option<string>
    var searchQuery: string
    var currentPage: int
    var hasMorePages: bool

    function State(): ExploreState
      reads this
    {
      ExploreState(shows, isLoading, errorMessage, searchQuery, currentPage, hasMorePages)
    }

    constructor ()
      ensures State() == Initial()
    {
      shows, isLoading, errorMessage := [], false, None;
      searchQuery, currentPage, hasMorePages := "", 1, true;
    }

    /** `loadShows()` up to its `await`; returns the request it sends, if any. */
    method LoadShows() returns (request: Option<Request>)
      modifies this
      ensures (State(), request) == StartLoad(old(State()))
    {
      if isLoading {
        return None;
      }
      isLoading := true;
      errorMessage := None;
      request := Some(Request(if searchQuery == [] then None else Some(searchQuery), currentPage));
    }

    /** The rest of `loadShows()`, once the catalog call returns or throws. */
    method LoadShowsFinished(result: Result<seq<Concert>, string>)
      modifies this
      ensures result.Success? ==> State() == LoadSucceeded(old(State()), result.value)
      ensures result.Failure? ==> State() == LoadFailed(old(State()), result.error)
    {
      match result {
        case Success(concerts) =>
          var newShows := PreviewsOf(concerts);
          if currentPage == 1 {
            shows := newShows;
          } else {
            shows := shows + newShows;
          }
          hasMorePages := newShows != [];
          currentPage := currentPage + 1;
          isLoading := false;
        case Failure(description) =>
          errorMessage := Some(FailurePrefix + description);
          isLoading := false;
      }
    }

    method ResetSearch()
      modifies this
      ensures State() == AfterReset(old(State()))
    {
      shows := [];
      currentPage := 1;
      hasMorePages := true;
    }

    method LoadMoreShows() returns (request: Option<Request>)
      modifies this
      ensures (State(), request) == StartLoad(old(State()))
    {
      request := LoadShows();
    }

    /** The search text settled on `query`: reset and load from the first page. */
    method SearchQuerySettled(query: string) returns (request: Option<Request>)
      modifies this
      ensures (State(), request) == StartLoad(AfterReset(old(State()).(searchQuery := query)))
    {
      searchQuery := query;
      ResetSearch();
      request := LoadShows();
    }
  }
}
