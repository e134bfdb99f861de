/**
 * The state of the main page's view model as a value, and one pure step
 * function per command: the specification that the class in module
 * ViewModels implements. Network replies and the connectivity probe are
 * inputs; every step also reports the service requests it issued.
 */
module Paging {
  import opened Wrappers
  import opened Movies

  /** What a call to a remote service gave: it threw, it returned null, or it returned a value. */
  datatype Reply<T> = Threw | Null | Returned(value: T)

  /** One page of the "Upcoming" category and the total page count reported with it. */
  datatype MoviePage = MoviePage(movies: seq<Movie>, totalPages: int)

  /** A call into the remote services: the genre list, or one 1-based page of upcoming movies. */
  datatype Request = GenresRequest | UpcomingPageRequest(page: int)

  /** The view model's fields; `genres == None` is the C# `null` list. */
  datatype ViewState = ViewState(
    currentPage: int,
    totalPage: int,
    genres: Option<seq<Genre>>,
    movies: seq<Movie>,
    isBusy: bool,
    isConnected: bool)

  /** A state after a command, with the requests the command issued in order. */
  datatype Outcome = Outcome(state: ViewState, requests: seq<Request>)

  /** Field initialisers of the view model (before its constructor issues the first reload). */
  function Initial(): ViewState {
    ViewState(1, 0, None, [], false, false)
  }

  /** Enriches every movie of a list with the same genre list, keeping their order. */
  function EnrichAll(genres: seq<Genre>, ms: seq<Movie>): (r: seq<Movie>)
    ensures |r| == |ms|
  {
    seq(|ms|, i requires 0 <= i < |ms| => Enriched(genres, ms[i]))
  }

  /** Position of the first movie whose enrichment throws, or the page length when none does. */
  function FirstUnenrichable(genres: Option<seq<Genre>>, page: seq<Movie>): (n: nat)
    ensures n <= |page|
    ensures forall k :: 0 <= k < n ==> !Throws(genres, page[k])
    ensures n < |page| ==> Throws(genres, page[n])
  {
    if page == [] || Throws(genres, page[0]) then 0
    else 1 + FirstUnenrichable(genres, page[1..])
  }

  /**
   * The movies the `foreach` of `LoadMoviesAsync` appends: each one enriched,
   * in server order, until the first one whose enrichment throws.
   */
  function EnrichedPrefix(genres: Option<seq<Genre>>, page: seq<Movie>): seq<Movie> {
    EnrichAll(genres.GetOr([]), page[..FirstUnenrichable(genres, page)])
  }

  /** With a genre list nothing throws, so the whole page is appended. */
  lemma EnrichedPrefixComplete(genres: seq<Genre>, page: seq<Movie>)
    ensures EnrichedPrefix(Some(genres), page) == EnrichAll(genres, page)
  {
    assert page[..|page|] == page;
  }

  /**
   * `LoadMoviesAsync(page, Upcoming)`: fetch the genre list only if it is
   * null, then the page; on a non-null page overwrite `totalPage` and append
   * the enriched movies. Every exception is swallowed.
   */
  function Load(s: ViewState, page: int, genresReply: Reply<seq<Genre>>, pageReply: Reply<MoviePage>): (r: Outcome)
    ensures r.state.currentPage == s.currentPage && r.state.isBusy == s.isBusy && r.state.isConnected == s.isConnected
    ensures (GenresRequest in r.requests) <==> s.genres.None?
    ensures (UpcomingPageRequest(page) in r.requests) <==> !(s.genres.None? && genresReply.Threw?)
    ensures |r.requests| <= 2
    ensures s.genres.Some? ==> r.state.genres == s.genres
    ensures s.genres.None? && !genresReply.Returned? ==> r.state.genres.None?
    ensures s.genres.None? && genresReply.Returned? ==> r.state.genres == Some(genresReply.value)
    ensures r.requests ==
      (if s.genres.None? then [GenresRequest] else []) +
      (if s.genres.None? && genresReply.Threw? then [] else [UpcomingPageRequest(page)])
    ensures
      if (s.genres.None? && genresReply.Threw?) || !pageReply.Returned? then
        r.state.movies == s.movies && r.state.totalPage == s.totalPage
      else
        r.state.totalPage == pageReply.value.totalPages &&
        r.state.movies == s.movies + EnrichedPrefix(r.state.genres, pageReply.value.movies)
  {
    if s.genres.None? && genresReply.Threw? then
      Outcome(s, [GenresRequest])
    else
      var genres := if s.genres.Some? then s.genres
                    else if genresReply.Returned? then Some(genresReply.value)
                    else None;
      var requests := (if s.genres.None? then [GenresRequest] else []) + [UpcomingPageRequest(page)];
      var s' := s.(genres := genres);
      match pageReply
      case Returned(p) =>
        Outcome(s'.(totalPage := p.totalPages, movies := s.movies + EnrichedPrefix(genres, p.movies)), requests)
      case _ => Outcome(s', requests)
  }

  /**
   * `NextPageUpcomingMoviesAsync`: advance `currentPage` unconditionally,
   * then load it only if it does not pass `totalPage`.
   */
  function NextPage(s: ViewState, genresReply: Reply<seq<Genre>>, pageReply: Reply<MoviePage>): (r: Outcome)
    ensures r.state.currentPage == s.currentPage + 1
    ensures s.currentPage + 1 <= s.totalPage ==> r == Load(s.(currentPage := s.currentPage + 1), s.currentPage + 1, genresReply, pageReply)
    ensures s.currentPage + 1 > s.totalPage ==> r.state == s.(currentPage := s.currentPage + 1) && r.requests == []
    ensures forall q :: UpcomingPageRequest(q) in r.requests ==> q == s.currentPage + 1 <= s.totalPage
  {
    var s' := s.(currentPage := s.currentPage + 1);
    if s'.currentPage <= s'.totalPage then Load(s', s'.currentPage, genresReply, pageReply)
    else Outcome(s', [])
  }

  /** `ObservableCollection.IndexOf`: the first position of the movie, or -1. */
  function IndexOf(ms: seq<Movie>, m: Movie): (i: int)
    ensures -1 <= i < |ms|
    ensures i == -1 <==> m !in ms
    ensures 0 <= i ==> ms[i] == m && m !in ms[..i]
  {
    if ms == [] then -1
    else if ms[0] == m then 0
    else
      var j := IndexOf(ms[1..], m);
      assert ms[1..][..(if j < 0 then 0 else j)] == ms[1..1 + (if j < 0 then 0 else j)];
      if j < 0 then -1 else 1 + j
  }

  /** How close to the end of the list an appearing item must be to load the next page. */
  const LoadNextItem: int := 2

  /** The near-end test of `ExecuteItemAppearingCommand`. */
  predicate NearEnd(count: int, index: int) {
    count - LoadNextItem <= index
  }

  /** `ExecuteItemAppearingCommand(movie)`: request the next page when the movie is near the end. */
  function ItemAppearing(s: ViewState, movie: Movie, genresReply: Reply<seq<Genre>>, pageReply: Reply<MoviePage>): Outcome {
    if NearEnd(|s.movies|, IndexOf(s.movies, movie)) then NextPage(s, genresReply, pageReply)
    else Outcome(s, [])
  }

  /**
   * `ExecuteLoadUpcomingMoviesCommand`: refresh the connectivity flag; unless
   * busy or offline, clear the movies and load page 1 while busy.
   */
  function Reload(s: ViewState, connected: bool, genresReply: Reply<seq<Genre>>, pageReply: Reply<MoviePage>): (r: Outcome)
    ensures r.state.isConnected == connected
    ensures s.isBusy || !connected ==> r.state == s.(isConnected := connected) && r.requests == []
    ensures !s.isBusy && connected ==>
      r.state.currentPage == 1 && !r.state.isBusy &&
      (UpcomingPageRequest(1) in r.requests <==> !(s.genres.None? && genresReply.Threw?)) &&
      (GenresRequest in r.requests <==> s.genres.None?) &&
      r.state.genres == (if s.genres.Some? then s.genres
                         else if genresReply.Returned? then Some(genresReply.value)
                         else None) &&
      r.requests ==
        (if s.genres.None? then [GenresRequest] else []) +
        (if s.genres.None? && genresReply.Threw? then [] else [UpcomingPageRequest(1)]) &&
      if (s.genres.None? && genresReply.Threw?) || !pageReply.Returned? then
        r.state.movies == [] && r.state.totalPage == s.totalPage
      else
        r.state.movies == EnrichedPrefix(r.state.genres, pageReply.value.movies) &&
        r.state.totalPage == pageReply.value.totalPages
  {
    var s' := s.(isConnected := connected);
    if s'.isBusy || !s'.isConnected then Outcome(s', [])
    else
      var loaded := Load(s'.(isBusy := true, movies := [], currentPage := 1), 1, genresReply, pageReply);
      Outcome(loaded.state.(isBusy := false), loaded.requests)
  }

  /**
   * The invariant every command keeps: the page counter is at least 1, and
   * every listed movie carries the names computed from the cached genre list
   * (movies listed while that list is null have no genre ids).
   */
  predicate IsEnriched(genres: Option<seq<Genre>>, m: Movie) {
    m.genresNames == GenreNames(m.genreIds, genres.GetOr([])) &&
    (genres.None? ==> m.genreIds == [])
  }

  predicate Valid(s: ViewState) {
    s.currentPage >= 1 &&
    forall i :: 0 <= i < |s.movies| ==> IsEnriched(s.genres, s.movies[i])
  }

  lemma InitialValid()
    ensures Valid(Initial())
  {
  }

  lemma LoadPreservesValid(s: ViewState, page: int, genresReply: Reply<seq<Genre>>, pageReply: Reply<MoviePage>)
    requires Valid(s)
    ensures Valid(Load(s, page, genresReply, pageReply).state)
  {
    var r := Load(s, page, genresReply, pageReply).state;
    forall i | 0 <= i < |r.movies|
      ensures IsEnriched(r.genres, r.movies[i])
    {
      if i < |s.movies| {
        assert r.movies[i] == s.movies[i];
      } else {
        var p := pageReply.value.movies;
        var k := i - |s.movies|;
        assert r.movies[i] == EnrichedPrefix(r.genres, p)[k];
        assert k < FirstUnenrichable(r.genres, p);
        assert !Throws(r.genres, p[k]);
      }
    }
  }

  lemma NextPagePreservesValid(s: ViewState, genresReply: Reply<seq<Genre>>, pageReply: Reply<MoviePage>)
    requires Valid(s)
    ensures Valid(NextPage(s, genresReply, pageReply).state)
  {
    if s.currentPage + 1 <= s.totalPage {
      LoadPreservesValid(s.(currentPage := s.currentPage + 1), s.currentPage + 1, genresReply, pageReply);
    }
  }

  lemma ItemAppearingPreservesValid(s: ViewState, movie: Movie, genresReply: Reply<seq<Genre>>, pageReply: Reply<MoviePage>)
    requires Valid(s)
    ensures Valid(ItemAppearing(s, movie, genresReply, pageReply).state)
  {
    NextPagePreservesValid(s, genresReply, pageReply);
  }

  lemma ReloadPreservesValid(s: ViewState, connected: bool, genresReply: Reply<seq<Genre>>, pageReply: Reply<MoviePage>)
    requires Valid(s)
    ensures Valid(Reload(s, connected, genresReply, pageReply).state)
  {
    if !s.isBusy && connected {
      LoadPreservesValid(s.(isConnected := connected, isBusy := true, movies := [], currentPage := 1), 1, genresReply, pageReply);
    }
  }
}
