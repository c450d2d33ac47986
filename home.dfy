/** The home screen's recent and featured shows (HomeViewModel.swift). */
module Home {
  import opened Wrappers
  import opened Concerts
  import opened Shows
  import Archive
  import Text

  const FailurePrefix := "Failed to load shows: "

  /** How many shows are featured at most. */
  const FeaturedCount := 3

  /** `searchConcerts(page: 1)` with every filter left at its default of nil. */
  const FirstPageQuery := Archive.BaseQuery + Archive.QueryFilter(None) + Archive.YearFilter(None) + Archive.VenueFilter(None)

  datatype HomeState = HomeState(
    recentShows: seq<ShowPreview>,
    featuredShows: seq<ShowPreview>,
    isLoading: bool,
    errorMessage: Option<string>)

  function Initial(): (s: HomeState)
    ensures s.recentShows == [] && s.featuredShows == [] && !s.isLoading && s.errorMessage.None?
  {
    HomeState([], [], false, None)
  }

  /** The indices `0..<min(3, count)` mapped to shows when there are more than three, else all of them. */
  function FeaturedSelection(shows: seq<ShowPreview>): (r: seq<ShowPreview>)
    ensures r == shows[..if |shows| < FeaturedCount then |shows| else FeaturedCount]
  {
    if |shows| > FeaturedCount then seq(FeaturedCount, i requires 0 <= i < FeaturedCount => shows[i]) else shows
  }

  /** `loadData()` up to its `await`: there is no guard against a running load. */
  function StartLoad(s: HomeState): HomeState {
    s.(isLoading := true, errorMessage := None)
  }

  function LoadSucceeded(s: HomeState, concerts: seq<Concert>): HomeState {
    var shows := PreviewsOf(concerts);
    s.(recentShows := shows, featuredShows := FeaturedSelection(shows), isLoading := false)
  }

  function LoadFailed(s: HomeState, description: string): HomeState {
    s.(errorMessage := Some(FailurePrefix + description), isLoading := false)
  }

  /**
   * A load always starts, clearing the error; success shows every concert
   * in order as a preview and features the first three (or all, if fewer);
   * failure keeps both lists and records the message.
   */
  lemma LoadProperties(s: HomeState, concerts: seq<Concert>, description: string)
    ensures StartLoad(s).isLoading && StartLoad(s).errorMessage.None?
    ensures StartLoad(s).recentShows == s.recentShows && StartLoad(s).featuredShows == s.featuredShows
    ensures var r := LoadSucceeded(s, concerts);
            |r.recentShows| == |concerts| &&
            (forall i :: 0 <= i < |concerts| ==> r.recentShows[i] == PreviewOf(concerts[i])) &&
            |r.featuredShows| == (if |concerts| < FeaturedCount then |concerts| else FeaturedCount) &&
            (forall i :: 0 <= i < |r.featuredShows| ==> r.featuredShows[i] == r.recentShows[i]) &&
            !r.isLoading && r.errorMessage == s.errorMessage
    ensures var r := LoadFailed(s, description);
            r.recentShows == s.recentShows && r.featuredShows == s.featuredShows &&
            !r.isLoading && r.errorMessage == Some(FailurePrefix + description)
  {
    PreviewsOfAt(concerts);
  }

  class HomeViewModel {
    var recentShows: seq<ShowPreview>
    var featuredShows: seq<ShowPreview>
    var isLoading: bool
    var errorMessage: Option<string>

    function State(): HomeState
      reads this
    {
      HomeState(recentShows, featuredShows, isLoading, errorMessage)
    }

    constructor ()
      ensures State() == Initial()
    {
      recentShows, featuredShows, isLoading, errorMessage := [], [], false, None;
    }

    /**
     * `loadData()` up to its `await`. It returns the query items of the
     * catalog call, which always asks for the first page with no filters.
     */
    method LoadData() returns (items: seq<(string, string)>)
      modifies this
      ensures State() == StartLoad(old(State()))
      ensures items == Archive.SearchItems(FirstPageQuery, 1)
      ensures items[0] == ("q", Archive.BaseQuery) && Text.ParseInt(items[4].1) == Some(1)
    {
      isLoading := true;
      errorMessage := None;
      var q := Archive.BuildSearchQuery(None, None, None);
      assert Archive.QueryFilter(None) == Archive.YearFilter(None) == Archive.VenueFilter(None) == "";
      assert q == Archive.BaseQuery;
      items := Archive.SearchItems(q, 1);
    }

    /** The rest of `loadData()`, once the catalog call returns or throws. */
    method LoadDataFinished(result: Result<seq<Concert>, string>)
      modifies this
      ensures result.Success? ==> State() == LoadSucceeded(old(State()), result.value)
      ensures result.Failure? ==> State() == LoadFailed(old(State()), result.error)
    {
      match result {
        case Success(concerts) =>
          var shows := PreviewsOf(concerts);
          recentShows := shows;
          featuredShows := FeaturedSelection(shows);
          isLoading := false;
        case Failure(description) =>
          errorMessage := Some(FailurePrefix + description);
          isLoading := false;
      }
    }

    method RefreshData() returns (items: seq<(string, string)>)
      modifies this
      ensures State() == StartLoad(old(State()))
      ensures items == Archive.SearchItems(FirstPageQuery, 1)
    {
      items := LoadData();
    }
  }
}
