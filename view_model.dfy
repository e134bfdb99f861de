/**
 * `MainPageViewModel`: the object the main page binds to. Its methods change
 * the fields in place; each one is proved to produce exactly the state and
 * the requests of the matching step function of module Paging.
 */
module ViewModels {
  import opened Wrappers
  import opened Movies
  import opened Paging

  class MainPageViewModel {
    var currentPage: int
    var totalPage: int
    var genres: Option<seq<Genre>>
    var movies: seq<Movie>
    var isBusy: bool
    var isConnected: bool

    /** The fields as one value. */
    function State(): ViewState
      reads this
    {
      ViewState(currentPage, totalPage, genres, movies, isBusy, isConnected)
    }

    predicate Valid()
      reads this
    {
      Paging.Valid(State())
    }

    /**
     * The constructor: field initialisers, then the reload the constructor
     * issues (`LoadUpcomingMoviesCommand.Execute()`), run to completion.
     */
    constructor (connected: bool, genresReply: Reply<seq<Genre>>, pageReply: Reply<MoviePage>)
      ensures Valid()
      ensures State() == Reload(Initial(), connected, genresReply, pageReply).state
    {
      currentPage := 1;
      totalPage := 0;
      genres := None;
      movies := [];
      isBusy := false;
      isConnected := false;
      new;
      InitialValid();
      var _ := LoadUpcomingMovies(connected, genresReply, pageReply);
    }

    /** `ExecuteLoadUpcomingMoviesCommand`; `connected` is what the connectivity probe reports. */
    method LoadUpcomingMovies(connected: bool, genresReply: Reply<seq<Genre>>, pageReply: Reply<MoviePage>)
        returns (requests: seq<Request>)
      requires Valid()
      modifies this
      ensures Valid()
      ensures Outcome(State(), requests) == Reload(old(State()), connected, genresReply, pageReply)
    {
      ReloadPreservesValid(State(), connected, genresReply, pageReply);
      isConnected := connected;
      if isBusy || !isConnected {
        return [];
      }
      isBusy := true;
      movies := [];
      currentPage := 1;
      requests := LoadMovies(currentPage, genresReply, pageReply);
      isBusy := false;
    }

    /** `ExecuteItemAppearingCommand(movie)`. */
    method ItemAppearingCommand(movie: Movie, genresReply: Reply<seq<Genre>>, pageReply: Reply<MoviePage>)
        returns (requests: seq<Request>)
      requires Valid()
      modifies this
      ensures Valid()
      ensures Outcome(State(), requests) == ItemAppearing(old(State()), movie, genresReply, pageReply)
    {
      var viewCellIndex := IndexOf(movies, movie);
      if |movies| - LoadNextItem <= viewCellIndex {
        requests := NextPageUpcomingMovies(genresReply, pageReply);
      } else {
        requests := [];
      }
    }

    /** `NextPageUpcomingMoviesAsync`. */
    method NextPageUpcomingMovies(genresReply: Reply<seq<Genre>>, pageReply: Reply<MoviePage>)
        returns (requests: seq<Request>)
      requires Valid()
      modifies this
      ensures Valid()
      ensures Outcome(State(), requests) == NextPage(old(State()), genresReply, pageReply)
    {
      NextPagePreservesValid(State(), genresReply, pageReply);
      currentPage := currentPage + 1;
      if currentPage <= totalPage {
        requests := LoadMovies(currentPage, genresReply, pageReply);
      } else {
        requests := [];
      }
    }

    /** `LoadMoviesAsync(page, Upcoming)`; the `try`/`catch` becomes the early returns. */
    method LoadMovies(page: int, genresReply: Reply<seq<Genre>>, pageReply: Reply<MoviePage>)
        returns (requests: seq<Request>)
      requires Valid()
      modifies this
      ensures Valid()
      ensures Outcome(State(), requests) == Load(old(State()), page, genresReply, pageReply)
    {
      LoadPreservesValid(State(), page, genresReply, pageReply);
      requests := [];
      if genres.None? {
        requests := [GenresRequest];
        match genresReply
        case Threw => return;
        case Null =>
        case Returned(g) => genres := Some(g);
      }
      requests := requests + [UpcomingPageRequest(page)];
      if !pageReply.Returned? {
        return;
      }
      var result := pageReply.value;
      totalPage := result.totalPages;
      var i := 0;
      while i < |result.movies|
        invariant 0 <= i <= |result.movies|
        invariant forall k :: 0 <= k < i ==> !Throws(genres, result.movies[k])
        invariant movies == old(movies) + EnrichAll(genres.GetOr([]), result.movies[..i])
        invariant currentPage == old(currentPage) && totalPage == result.totalPages
        invariant isBusy == old(isBusy) && isConnected == old(isConnected)
        invariant old(genres).Some? ==> genres == old(genres)
        invariant old(genres).None? ==> genres == if genresReply.Returned? then Some(genresReply.value) else None
      {
        var item := GenreListToString(genres, result.movies[i]);
        if item.None? {
          break;
        }
        assert result.movies[..i + 1] == result.movies[..i] + [result.movies[i]];
        movies := movies + [item.value];
        i := i + 1;
      }
      assert i == FirstUnenrichable(genres, result.movies);
    }
  }
}
