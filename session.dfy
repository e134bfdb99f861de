/**
 * Properties of several commands in a row: infinite scrolling through the
 * upcoming pages, what happens once the pages are exhausted or a page fails,
 * the genre cache, and the near-end trigger.
 */
module Session {
  import opened Wrappers
  import opened Movies
  import opened Paging

  /** The next-page command issued once per reply, in order (the genre reply is the same each time). */
  function NextPages(s: ViewState, genresReply: Reply<seq<Genre>>, replies: seq<Reply<MoviePage>>): Outcome
    decreases |replies|
  {
    if replies == [] then Outcome(s, [])
    else
      var first := NextPage(s, genresReply, replies[0]);
      var rest := NextPages(first.state, genresReply, replies[1..]);
      Outcome(rest.state, first.requests + rest.requests)
  }

  /** The movies of several pages, each page enriched, pages in order. */
  function AllEnriched(genres: seq<Genre>, pages: seq<MoviePage>): seq<Movie>
    decreases |pages|
  {
    if pages == [] then [] else EnrichAll(genres, pages[0].movies) + AllEnriched(genres, pages[1..])
  }

  /** The requests for pages from+1, ..., from+n of the upcoming category. */
  function PageRequests(from: int, n: nat): (r: seq<Request>)
    ensures |r| == n
    ensures forall k :: 0 <= k < n ==> r[k] == UpcomingPageRequest(from + 1 + k)
  {
    seq(n, k => UpcomingPageRequest(from + 1 + k))
  }

  function Successes(pages: seq<MoviePage>): (r: seq<Reply<MoviePage>>)
    ensures |r| == |pages|
  {
    seq(|pages|, k requires 0 <= k < |pages| => Returned(pages[k]))
  }

  /** One next-page command answered with a page, the genre list being cached. */
  lemma NextPageAnswered(s: ViewState, g: seq<Genre>, genresReply: Reply<seq<Genre>>, p: MoviePage)
    requires s.genres == Some(g)
    requires s.currentPage + 1 <= s.totalPage
    ensures NextPage(s, genresReply, Returned(p)) ==
      Outcome(s.(currentPage := s.currentPage + 1, totalPage := p.totalPages, movies := s.movies + EnrichAll(g, p.movies)),
              [UpcomingPageRequest(s.currentPage + 1)])
  {
    EnrichedPrefixComplete(g, p.movies);
  }

  /** NextPages on a non-empty list of replies: the first command, then the rest. */
  lemma NextPagesUnfold(s: ViewState, genresReply: Reply<seq<Genre>>, replies: seq<Reply<MoviePage>>)
    requires replies != []
    ensures NextPages(s, genresReply, replies) ==
      var first := NextPage(s, genresReply, replies[0]);
      var rest := NextPages(first.state, genresReply, replies[1..]);
      Outcome(rest.state, first.requests + rest.requests)
  {
  }

  /**
   * What scrolling through `pages` from state `s` must produce: their
   * enriched movies appended, one request per page in order, the counter
   * advanced once per page, the genre list kept.
   */
  predicate Scrolled(s: ViewState, g: seq<Genre>, pages: seq<MoviePage>, o: Outcome) {
    o.state.movies == s.movies + AllEnriched(g, pages) &&
    o.state.currentPage == s.currentPage + |pages| &&
    o.state.genres == Some(g) &&
    o.requests == PageRequests(s.currentPage, |pages|) &&
    o.state.totalPage == (if pages == [] then s.totalPage else pages[|pages| - 1].totalPages)
  }

  /**
   * Scrolling with the genre list cached and every page answered: the pages
   * after the current one are requested one by one, in order, and their
   * enriched movies are appended in server order. The total page count may
   * change between replies, as long as every reply still reports at least
   * the last page scrolled to.
   */
  lemma {:induction false} SequentialPagesAppendInOrder(s: ViewState, g: seq<Genre>, genresReply: Reply<seq<Genre>>, pages: seq<MoviePage>)
    requires s.genres == Some(g)
    requires s.currentPage + |pages| <= s.totalPage
    requires forall k :: 0 <= k < |pages| ==> s.currentPage + |pages| <= pages[k].totalPages
    ensures Scrolled(s, g, pages, NextPages(s, genresReply, Successes(pages)))
    decreases |pages|
  {
    if pages != [] {
      NextPagesUnfold(s, genresReply, Successes(pages));
      NextPageAnswered(s, g, genresReply, pages[0]);
      var s1 := NextPage(s, genresReply, Returned(pages[0])).state;
      var rest := pages[1..];
      assert Successes(pages)[1..] == Successes(rest);
      forall k | 0 <= k < |rest|
        ensures s1.currentPage + |rest| <= rest[k].totalPages
      {
        assert rest[k] == pages[k + 1];
      }
      SequentialPagesAppendInOrder(s1, g, genresReply, rest);
      ScrolledCons(s, s1, g, pages, NextPages(s1, genresReply, Successes(rest)));
    }
  }

  /** Scrolling through one page and then the rest is scrolling through all of them. */
  lemma ScrolledCons(s: ViewState, s1: ViewState, g: seq<Genre>, pages: seq<MoviePage>, o: Outcome)
    requires pages != []
    requires s1.currentPage == s.currentPage + 1 && s1.totalPage == pages[0].totalPages
    requires s1.movies == s.movies + EnrichAll(g, pages[0].movies)
    requires Scrolled(s1, g, pages[1..], o)
    requires s1.genres == Some(g)
    ensures Scrolled(s, g, pages, Outcome(o.state, [UpcomingPageRequest(s.currentPage + 1)] + o.requests))
  {
    var rest := pages[1..];
    assert AllEnriched(g, pages) == EnrichAll(g, pages[0].movies) + AllEnriched(g, rest);
    assert PageRequests(s.currentPage, |pages|) == [UpcomingPageRequest(s.currentPage + 1)] + PageRequests(s1.currentPage, |rest|);
    assert rest != [] ==> rest[|rest| - 1] == pages[|pages| - 1];
  }

  /** A reload while online and idle, answered with page 1, the genre list cached or fetched. */
  lemma ReloadAnswered(s: ViewState, g: seq<Genre>, genresReply: Reply<seq<Genre>>, p: MoviePage)
    requires !s.isBusy
    requires s.genres == Some(g) || (s.genres.None? && genresReply == Returned(g))
    ensures Reload(s, true, genresReply, Returned(p)) ==
      Outcome(ViewState(1, p.totalPages, Some(g), EnrichAll(g, p.movies), false, true),
              (if s.genres.None? then [GenresRequest] else []) + [UpcomingPageRequest(1)])
  {
    EnrichedPrefixComplete(g, p.movies);
  }

  /**
   * A reload followed by scrolling to page n: the list is the concatenation
   * of pages 1..n, each enriched, in order; the genre list is requested at
   * most once (only when it was not cached) and pages 1..n once each, in order.
   */
  lemma ReloadThenScroll(s: ViewState, g: seq<Genre>, genresReply: Reply<seq<Genre>>, pages: seq<MoviePage>)
    requires !s.isBusy
    requires s.genres == Some(g) || (s.genres.None? && genresReply == Returned(g))
    requires pages != []
    requires forall k :: 0 <= k < |pages| ==> |pages| <= pages[k].totalPages
    ensures
      var first := Reload(s, true, genresReply, Returned(pages[0]));
      var rest := NextPages(first.state, genresReply, Successes(pages[1..]));
      rest.state.movies == AllEnriched(g, pages) &&
      rest.state.currentPage == |pages| &&
      first.requests + rest.requests == (if s.genres.None? then [GenresRequest] else []) + PageRequests(0, |pages|)
  {
    ReloadAnswered(s, g, genresReply, pages[0]);
    var first := Reload(s, true, genresReply, Returned(pages[0]));
    var tail := pages[1..];
    forall k | 0 <= k < |tail|
      ensures first.state.currentPage + |tail| <= tail[k].totalPages
    {
      assert tail[k] == pages[k + 1];
    }
    SequentialPagesAppendInOrder(first.state, g, genresReply, tail);
    var rest := NextPages(first.state, genresReply, Successes(tail));
    ReloadScrollCompose(first.state, g, pages, rest);
    var genresAsked: seq<Request> := if s.genres.None? then [GenresRequest] else [];
    assert first.requests == genresAsked + [UpcomingPageRequest(1)];
    assert first.requests + rest.requests == genresAsked + ([UpcomingPageRequest(1)] + rest.requests);
  }

  /** Page 1 listed after a reload, then the other pages scrolled through: all pages from the first. */
  lemma ReloadScrollCompose(s1: ViewState, g: seq<Genre>, pages: seq<MoviePage>, o: Outcome)
    requires pages != []
    requires s1.currentPage == 1 && s1.movies == EnrichAll(g, pages[0].movies)
    requires Scrolled(s1, g, pages[1..], o)
    ensures o.state.movies == AllEnriched(g, pages)
    ensures o.state.currentPage == |pages|
    ensures [UpcomingPageRequest(1)] + o.requests == PageRequests(0, |pages|)
  {
    assert AllEnriched(g, pages) == EnrichAll(g, pages[0].movies) + AllEnriched(g, pages[1..]);
    assert PageRequests(0, |pages|) == [UpcomingPageRequest(1)] + PageRequests(1, |pages| - 1);
  }

  /**
   * Once the current page has reached the total, further next-page commands
   * request nothing and change nothing but the counter, which keeps growing
   * by one per command: it is not bounded by the total page count.
   */
  lemma {:induction false} ExhaustedOnlyAdvancesCounter(s: ViewState, genresReply: Reply<seq<Genre>>, replies: seq<Reply<MoviePage>>)
    requires s.totalPage <= s.currentPage
    ensures NextPages(s, genresReply, replies).requests == []
    ensures NextPages(s, genresReply, replies).state == s.(currentPage := s.currentPage + |replies|)
    decreases |replies|
  {
    if replies != [] {
      ExhaustedOnlyAdvancesCounter(s.(currentPage := s.currentPage + 1), genresReply, replies[1..]);
    }
  }

  /**
   * A page whose load fails is skipped until the next reload: the counter has
   * already moved past it, so the next trigger requests the page after it and
   * appends only that page's movies.
   */
  lemma FailedPageIsSkipped(s: ViewState, g: seq<Genre>, genresReply: Reply<seq<Genre>>, failure: Reply<MoviePage>, p: MoviePage)
    requires s.genres == Some(g)
    requires !failure.Returned?
    requires s.currentPage + 2 <= s.totalPage
    ensures NextPages(s, genresReply, [failure, Returned(p)]).requests ==
      [UpcomingPageRequest(s.currentPage + 1), UpcomingPageRequest(s.currentPage + 2)]
    ensures NextPages(s, genresReply, [failure, Returned(p)]).state.movies == s.movies + EnrichAll(g, p.movies)
  {
    var replies := [failure, Returned(p)];
    NextPagesUnfold(s, genresReply, replies);
    var first := NextPage(s, genresReply, failure);
    assert first == Outcome(s.(currentPage := s.currentPage + 1), [UpcomingPageRequest(s.currentPage + 1)]);
    assert replies[1..] == [Returned(p)];
    NextPagesUnfold(first.state, genresReply, [Returned(p)]);
    NextPageAnswered(first.state, g, genresReply, p);
  }

  /** The commands the page issues: a reload, or an item appearing on screen. */
  datatype Command =
    | ReloadCommand(connected: bool, genresReply: Reply<seq<Genre>>, pageReply: Reply<MoviePage>)
    | ItemAppearingCommand(movie: Movie, genresReply: Reply<seq<Genre>>, pageReply: Reply<MoviePage>)

  function Step(s: ViewState, c: Command): Outcome {
    match c
    case ReloadCommand(connected, gr, pr) => Reload(s, connected, gr, pr)
    case ItemAppearingCommand(m, gr, pr) => ItemAppearing(s, m, gr, pr)
  }

  function Run(s: ViewState, cs: seq<Command>): Outcome
    decreases |cs|
  {
    if cs == [] then Outcome(s, [])
    else
      var first := Step(s, cs[0]);
      var rest := Run(first.state, cs[1..]);
      Outcome(rest.state, first.requests + rest.requests)
  }

  /** Once the genre list is cached it is never requested again and never replaced, whatever the commands. */
  lemma {:induction false} CachedGenresAreNeverRefetched(s: ViewState, cs: seq<Command>)
    requires s.genres.Some?
    ensures Run(s, cs).state.genres == s.genres
    ensures GenresRequest !in Run(s, cs).requests
    decreases |cs|
  {
    if cs != [] {
      CachedGenresAreNeverRefetched(Step(s, cs[0]).state, cs[1..]);
    }
  }

  /** Any sequence of commands from a state satisfying the invariant keeps it. */
  lemma {:induction false} RunPreservesValid(s: ViewState, cs: seq<Command>)
    requires Valid(s)
    ensures Valid(Run(s, cs).state)
    decreases |cs|
  {
    if cs != [] {
      match cs[0] {
        case ReloadCommand(connected, gr, pr) => ReloadPreservesValid(s, connected, gr, pr);
        case ItemAppearingCommand(m, gr, pr) => ItemAppearingPreservesValid(s, m, gr, pr);
      }
      RunPreservesValid(Step(s, cs[0]).state, cs[1..]);
    }
  }

  /** The next-page command has no re-entrancy guard: it behaves the same whether or not a reload is busy. */
  lemma NextPageIgnoresBusy(s: ViewState, busy: bool, genresReply: Reply<seq<Genre>>, pageReply: Reply<MoviePage>)
    ensures NextPage(s.(isBusy := busy), genresReply, pageReply).requests == NextPage(s, genresReply, pageReply).requests
    ensures NextPage(s.(isBusy := busy), genresReply, pageReply).state == NextPage(s, genresReply, pageReply).state.(isBusy := busy)
  {
  }

  /**
   * A listed movie triggers the next page exactly when it is one of the
   * last two (its first occurrence is at index |movies| - 2 or later);
   * otherwise the command changes nothing.
   */
  lemma TriggerOnLastTwo(s: ViewState, i: int, genresReply: Reply<seq<Genre>>, pageReply: Reply<MoviePage>)
    requires 0 <= i < |s.movies| && s.movies[i] !in s.movies[..i]
    ensures ItemAppearing(s, s.movies[i], genresReply, pageReply) ==
      if |s.movies| - 2 <= i then NextPage(s, genresReply, pageReply) else Outcome(s, [])
  {
  }

  /** A movie that is not listed triggers the next page exactly when at most one movie is listed. */
  lemma TriggerOnUnlistedMovie(s: ViewState, m: Movie, genresReply: Reply<seq<Genre>>, pageReply: Reply<MoviePage>)
    requires m !in s.movies
    ensures ItemAppearing(s, m, genresReply, pageReply) ==
      if |s.movies| <= 1 then NextPage(s, genresReply, pageReply) else Outcome(s, [])
  {
  }

  /**
   * The scenario of 20 listed movies from page 1 of 5: the 19th (index 18)
   * requests page 2, the 10th (index 9) does nothing.
   */
  lemma NearEndScenario(s: ViewState, genresReply: Reply<seq<Genre>>, pageReply: Reply<MoviePage>)
    requires |s.movies| == 20 && s.currentPage == 1 && s.totalPage == 5 && s.genres.Some?
    requires forall i, j :: 0 <= i < j < |s.movies| ==> s.movies[i] != s.movies[j]
    ensures ItemAppearing(s, s.movies[18], genresReply, pageReply).requests == [UpcomingPageRequest(2)]
    ensures ItemAppearing(s, s.movies[18], genresReply, pageReply).state.currentPage == 2
    ensures ItemAppearing(s, s.movies[9], genresReply, pageReply) == Outcome(s, [])
  {
    assert s.movies[18] !in s.movies[..18];
    assert s.movies[9] !in s.movies[..9];
    TriggerOnLastTwo(s, 18, genresReply, pageReply);
    TriggerOnLastTwo(s, 9, genresReply, pageReply);
  }
}
