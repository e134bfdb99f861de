# TheMovie: main page pagination and genre enrichment

This project models the core of the TheMovie Xamarin app's `MainPageViewModel`
and proves properties about it. The view model shows a growing list of
upcoming movies. A reload clears the list and loads page 1. When one of the
last two listed movies appears on screen, the next page is loaded
(infinite scroll). Each movie is enriched with a comma-joined string of genre
names, looked up in a genre list that is fetched lazily and then cached.

The model has five modules:

- `Wrappers` (`wrappers.dfy`): `Option`, which stands for a C# reference that may be null.
- `Movies` (`movies.dfy`): the `Genre` and `Movie` values, and the genre-name join.
  The join is written two ways: `Join`/`GenreNames` is a reference
  definition, and the method `GenreListToString` follows the source's
  `StringBuilder` loop. The method's postcondition ties the two together.
- `Paging` (`paging.dfy`): the view model's fields as a value (`ViewState`).
  There is one pure step function per command (`Load`, `NextPage`,
  `ItemAppearing`, `Reload`), and an invariant `Valid` that every step keeps.
  The invariant says the page counter is at least 1 and every listed movie
  carries the names computed from the cached genre list.
- `ViewModels` (`view_model.dfy`): the class `MainPageViewModel`. It has the
  source's fields: `currentPage`, `totalPage`, `genres`, `movies`, `isBusy`
  and `isConnected`. Each method updates them in place. Each method also
  ensures that its new state and the requests it issued equal the matching
  step function applied to the old state.
- `Session` (`session.dfy`): properties of several commands in a row,
  stated over the step functions.

The remote calls and the connectivity probe become inputs:

- A reply from `ApiService` is a `Reply<T>`: `Threw`, `Null` or `Returned(v)`.
  A method gets the reply that each service would give, and uses it only if
  it calls that service.
- The connectivity probe is a `bool` parameter.
- Each command returns the service requests it issued, in order:
  `GenresRequest` or `UpcomingPageRequest(page)`. The category is always
  Upcoming.

The model follows the code, including behaviour that a stricter pagination design would rule out:

- `currentPage` is incremented on every next-page command, even past
  `totalPage`. Nothing bounds it by the total page count (see
  `Session.ExhaustedOnlyAdvancesCounter`).
- A failed page load still advances the counter, so that page is skipped
  until the next reload (see `Session.FailedPageIsSkipped`).
- The next-page command has no re-entrancy guard. It ignores `IsBusy`
  (see `Session.NextPageIgnoresBusy`).
- A reload does not reset `totalPage`. It keeps the old value until page 1
  answers.
- Failures are swallowed and leave no error state.
- When the genre service returns null instead of throwing, the genre list
  stays null. Enriching a movie that has genre ids then throws inside the
  append loop, and the catch swallows the exception. So `totalPage` is
  updated, and only the movies before the first one with genre ids are
  appended (`Paging.FirstUnenrichable`, `Paging.EnrichedPrefix`).

## Model

| member | source | states |
|---|---|---|
| Movies.FirstGenreName | TheMovie/TheMovie/ViewModels/MainPageViewModel.cs:137 | The lookup finds nothing exactly when no genre has the id. Otherwise it returns the name of the first genre in list order with that id. |
| Movies.FirstGenreNameUnique | TheMovie/TheMovie/ViewModels/MainPageViewModel.cs:137 | When genre ids are unique, looking up any entry's id gives that entry's name. |
| Movies.GenreNames | TheMovie/TheMovie/ViewModels/MainPageViewModel.cs:131-141 | No genre ids gives the empty string. A single id gives just its segment (its name, or "" when unknown). |
| Movies.JoinAppend | TheMovie/TheMovie/ViewModels/MainPageViewModel.cs:134-140 | Joining two non-empty lists puts exactly one separator between the two joins. So there is no trailing or doubled separator. |
| Movies.GenreNamesSplit | TheMovie/TheMovie/ViewModels/MainPageViewModel.cs:134-140 | The names of a concatenation of id lists are the two name strings joined by one ", ". |
| Movies.GenreNamesSnoc | TheMovie/TheMovie/ViewModels/MainPageViewModel.cs:138-139 | Appending an id to a non-empty list appends ", " and that id's segment. |
| Movies.MissingIdKeepsSeparators | TheMovie/TheMovie/ViewModels/MainPageViewModel.cs:137-138 | Ids [28, 999, 12] with only 28 and 12 known give "Action, , Adventure". The missing id is an empty segment and keeps its separators. |
| Movies.EnrichedDependsOnlyOnIds | TheMovie/TheMovie/ViewModels/MainPageViewModel.cs:141 | Two movies with the same genre ids get the same names. Enrichment changes no field other than the names. |
| Movies.EnrichedIdempotent | TheMovie/TheMovie/ViewModels/MainPageViewModel.cs:141 | Enriching twice with the same genre list gives the same movie as enriching once. |
| Movies.GenreListToString | TheMovie/TheMovie/ViewModels/MainPageViewModel.cs:131-142 | The loop that appends each segment plus ", " (except after the last) throws exactly when the genre list is null and the movie has ids. Otherwise it returns the movie with names equal to the reference join `GenreNames`. |
| Paging.FirstUnenrichable | TheMovie/TheMovie/ViewModels/MainPageViewModel.cs:104-108 | Gives the position where the append loop stops. No movie before it throws on enrichment, and the movie at that position (if any) does. |
| Paging.EnrichedPrefixComplete | TheMovie/TheMovie/ViewModels/MainPageViewModel.cs:104-108 | With a non-null genre list, the whole page is appended, each movie enriched, in server order. |
| Paging.Load | TheMovie/TheMovie/ViewModels/MainPageViewModel.cs:95-115 | The request log is exactly the genre request (only when the list is null) followed by the page request (unless the genre fetch threw). A cached list is kept; a list the genre service returns becomes the cache. If the genre fetch throws, the list stays null, no page is requested and nothing else changes. If the page reply is null or throws, `movies` and `totalPage` are unchanged. Otherwise `totalPage` becomes the reply's count and the enriched movies are appended after the old ones. The counter and the flags are untouched. |
| Paging.NextPage | TheMovie/TheMovie/ViewModels/MainPageViewModel.cs:117-124 | `currentPage` grows by exactly 1. The new page is loaded exactly when it is at most `totalPage`; otherwise nothing else changes and nothing is requested. Any page requested is the new `currentPage`. |
| Paging.IndexOf | TheMovie/TheMovie/ViewModels/MainPageViewModel.cs:88 | Gives -1 exactly when the movie is not listed. Otherwise gives the first index holding it. |
| Paging.Reload | TheMovie/TheMovie/ViewModels/MainPageViewModel.cs:53-71 | `isConnected` always becomes the probe's value. When busy or offline, nothing else changes and nothing is requested. Otherwise the counter is 1 and busy is false afterwards, and the list holds only page 1's enriched movies (empty if the load failed). The genre cache is kept, or set from the genre reply when it was null. The request log is the genre request (only if uncached), then page 1 (unless the genre fetch threw). |
| Paging.InitialValid | TheMovie/TheMovie/ViewModels/MainPageViewModel.cs:19-20 | The field initialisers satisfy the invariant. |
| Paging.LoadPreservesValid | TheMovie/TheMovie/ViewModels/MainPageViewModel.cs:95-115 | A load keeps the invariant: every listed movie carries the names computed from the cached genre list. |
| Paging.NextPagePreservesValid | TheMovie/TheMovie/ViewModels/MainPageViewModel.cs:117-124 | A next-page command keeps the invariant. |
| Paging.ItemAppearingPreservesValid | TheMovie/TheMovie/ViewModels/MainPageViewModel.cs:85-93 | An item-appearing command keeps the invariant. |
| Paging.ReloadPreservesValid | TheMovie/TheMovie/ViewModels/MainPageViewModel.cs:53-71 | A reload keeps the invariant. |
| ViewModels.MainPageViewModel.constructor | TheMovie/TheMovie/ViewModels/MainPageViewModel.cs:39-51 | After the field initialisers and the first reload command, the state is that of `Reload` from the initial state, and the invariant holds. |
| ViewModels.MainPageViewModel.LoadUpcomingMovies | TheMovie/TheMovie/ViewModels/MainPageViewModel.cs:53-71 | The fields in place and the requests issued are exactly those of `Paging.Reload`. The invariant is kept. |
| ViewModels.MainPageViewModel.ItemAppearingCommand | TheMovie/TheMovie/ViewModels/MainPageViewModel.cs:85-93 | The fields and requests are exactly those of `Paging.ItemAppearing`. The invariant is kept. |
| ViewModels.MainPageViewModel.NextPageUpcomingMovies | TheMovie/TheMovie/ViewModels/MainPageViewModel.cs:117-124 | The fields and requests are exactly those of `Paging.NextPage`. The invariant is kept. |
| ViewModels.MainPageViewModel.LoadMovies | TheMovie/TheMovie/ViewModels/MainPageViewModel.cs:95-115 | The fetches and the append-in-place loop give exactly the fields and requests of `Paging.Load`. The invariant is kept. |
| Session.NextPageAnswered | TheMovie/TheMovie/ViewModels/MainPageViewModel.cs:117-124 | With the genre list cached and the next page within bounds, one answered command requests only that page. It sets `totalPage` from the reply and appends the whole enriched page. |
| Session.SequentialPagesAppendInOrder | TheMovie/TheMovie/ViewModels/MainPageViewModel.cs:99-124 | Scrolling through n answered pages requests pages current+1 to current+n in order. The list becomes the old list followed by every page's enriched movies in order. `totalPage` is the last reply's count. |
| Session.ReloadAnswered | TheMovie/TheMovie/ViewModels/MainPageViewModel.cs:53-71 | An idle, online reload answered with page 1 leaves exactly page 1's enriched movies, counter 1 and not busy. It requests the genre list (only if not cached), then page 1. |
| Session.ReloadThenScroll | TheMovie/TheMovie/ViewModels/MainPageViewModel.cs:53-124 | A reload and then scrolling to page n lists the concatenation of pages 1..n, each enriched and in order. The genre list is requested at most once, and pages 1..n once each, in order. |
| Session.ExhaustedOnlyAdvancesCounter | TheMovie/TheMovie/ViewModels/MainPageViewModel.cs:117-124 | Once `currentPage >= totalPage`, any number of next-page commands requests nothing. They change only the counter, which grows by one per command. |
| Session.FailedPageIsSkipped | TheMovie/TheMovie/ViewModels/MainPageViewModel.cs:111-124 | Suppose a page's reply is null or throws. The next command requests the page after it, and only that page's movies are appended. |
| Session.CachedGenresAreNeverRefetched | TheMovie/TheMovie/ViewModels/MainPageViewModel.cs:99 | Once the genre list is cached, no run of commands requests or replaces it. |
| Session.RunPreservesValid | TheMovie/TheMovie/ViewModels/MainPageViewModel.cs:53-124 | Every run of reload and item-appearing commands keeps the invariant. |
| Session.NextPageIgnoresBusy | TheMovie/TheMovie/ViewModels/MainPageViewModel.cs:117-124 | The next-page command behaves the same whatever `isBusy` is. There is no re-entrancy guard. |
| Session.TriggerOnLastTwo | TheMovie/TheMovie/ViewModels/MainPageViewModel.cs:85-93 | A listed movie (at its first occurrence) triggers the next-page command exactly when its index is at least count - 2. Otherwise nothing changes. |
| Session.TriggerOnUnlistedMovie | TheMovie/TheMovie/ViewModels/MainPageViewModel.cs:85-93 | A movie that is not listed (index -1) triggers the next page exactly when at most one movie is listed. |
| Session.NearEndScenario | TheMovie/TheMovie/ViewModels/MainPageViewModel.cs:87-92 | With 20 distinct movies from page 1 of 5, index 18 requests page 2 and index 9 does nothing. |

## Left out

- The remote services (`ApiService.GetGenresAsync`, `ApiService.GetMoviesByCategoryAsync`) are not modelled. Their replies are inputs. `ApiService`, `BaseViewModel`, `Movie`, `Genre` and the page response type are not part of this model. Their fields are modelled as the view model uses them.
- `CrossConnectivity.Current.IsConnected` is a platform plugin. It is a `bool` parameter of the reload.
- `async`/`await` and `ConfigureAwait` are not modelled. Each command runs to completion as one atomic step. Interleavings of concurrent item-appearing triggers, reloads and first genre fetches are not modelled. In particular, the model cannot exhibit two overlapping first genre fetches, and the source has no de-duplication of them.
- `ExecuteSearchMoviesCommand`, `ExecuteShowMovieDetailCommand` and the page `Title` are left out: they are navigation and presentation plumbing.
- Prism `DelegateCommand` wiring, `SetProperty` change notification, `ObservableCollection` change events and `Debug.WriteLine` are left out as UI and framework glue. The logged exception message is dropped.
- `isBusy` is declared in `BaseViewModel` and can be set from outside. No operation of the model sets it from outside; the reload's guard is modelled for either value.
- `Paging.IndexOf`: compares movies by value. `ObservableCollection.IndexOf` on the C# `Movie` class compares references, so two equal-valued movies are distinct there.
- `Paging.NextPage`: does not model 32-bit wrap-around of `currentPage`, which would need more than two billion next-page commands.
- `ViewModels.MainPageViewModel.NextPageUpcomingMovies`: does not model 32-bit wrap-around of `currentPage` either, for the same reason.
- A null `Movies` array in a page reply, or a null `GenreIds` array in a movie, is not modelled. Both are non-null sequences here. The null page reply itself and a null genre list are modelled.
- Null entries inside the lists are not modelled, because `Genre` and `Movie` are values here. In the source, a null genre in the list makes the lookup lambda throw when the search reaches it. A null movie in a page throws when its `GenreIds` is read. Both exceptions are swallowed after `totalPage` is set, so the page would be appended only up to that point.
- `TheMovie/TheMovie/Models/Spoken_Languages.cs` is a JSON data class with no logic.
