/**
 * The records the main page shows (movies and genres) and the enrichment
 * step that writes a movie's comma-joined genre names from the genre list:
 * `MainPageViewModel.GenreListToString`.
 */
module Movies {
  import opened Wrappers

  /** One entry of the remote genre list. */
  datatype Genre = Genre(id: int, name: string)

  /** One movie as the category service returns it; `genresNames` is derived. */
  datatype Movie = Movie(
    id: int,
    title: string,
    overview: string,
    releaseDate: string,
    genreIds: seq<int>,
    genresNames: string)

  /** The separator placed between two genre names. */
  const Separator: string := ", "

  /** Name of the FIRST genre in list order with the given id (LINQ `FirstOrDefault(g => g.Id == id)?.Name`). */
  function FirstGenreName(genres: seq<Genre>, id: int): (r: Option<string>)
    ensures r.None? <==> forall k :: 0 <= k < |genres| ==> genres[k].id != id
    ensures r.Some? ==>
      exists k :: 0 <= k < |genres| && genres[k].id == id && genres[k].name == r.value &&
        forall j :: 0 <= j < k ==> genres[j].id != id
  {
    if genres == [] then None
    else if genres[0].id == id then Some(genres[0].name)
    else FirstGenreName(genres[1..], id)
  }

  /** When ids are unique, the lookup finds the name of the one entry with that id. */
  lemma {:induction false} FirstGenreNameUnique(genres: seq<Genre>, k: nat)
    requires k < |genres|
    requires forall i, j :: 0 <= i < j < |genres| ==> genres[i].id != genres[j].id
    ensures FirstGenreName(genres, genres[k].id) == Some(genres[k].name)
  {
    if k > 0 {
      assert genres[0].id != genres[k].id;
      assert genres[1..][k - 1] == genres[k];
      FirstGenreNameUnique(genres[1..], k - 1);
    }
  }

  /**
   * What one id contributes to the string: its name, or the empty string
   * when no genre has that id (the C# `null` appends nothing).
   */
  function Segment(genres: seq<Genre>, id: int): string {
    FirstGenreName(genres, id).GetOr("")
  }

  /** Reference definition of joining strings with a separator, with no trailing separator. */
  function Join(parts: seq<string>, sep: string): string {
    if |parts| == 0 then ""
    else if |parts| == 1 then parts[0]
    else parts[0] + sep + Join(parts[1..], sep)
  }

  /** Joining two non-empty lists puts exactly one separator between their joins. */
  lemma {:induction false} JoinAppend(a: seq<string>, b: seq<string>, sep: string)
    requires |a| > 0 && |b| > 0
    ensures Join(a + b, sep) == Join(a, sep) + sep + Join(b, sep)
  {
    if |a| == 1 {
      assert (a + b)[1..] == b;
    } else {
      assert (a + b)[1..] == a[1..] + b;
      JoinAppend(a[1..], b, sep);
    }
  }

  /** The looked-up segment of every id, in the order of the ids. */
  function Segments(ids: seq<int>, genres: seq<Genre>): (r: seq<string>)
    ensures |r| == |ids|
  {
    seq(|ids|, i requires 0 <= i < |ids| => Segment(genres, ids[i]))
  }

  /** The derived genre-name string of a movie with these genre ids. */
  function GenreNames(ids: seq<int>, genres: seq<Genre>): (r: string)
    ensures ids == [] ==> r == ""
    ensures |ids| == 1 ==> r == Segment(genres, ids[0])
  {
    Join(Segments(ids, genres), Separator)
  }

  /** The names of a concatenation of id lists are the two joins with one separator between. */
  lemma GenreNamesSplit(a: seq<int>, b: seq<int>, genres: seq<Genre>)
    requires |a| > 0 && |b| > 0
    ensures GenreNames(a + b, genres) == GenreNames(a, genres) + Separator + GenreNames(b, genres)
  {
    assert Segments(a + b, genres) == Segments(a, genres) + Segments(b, genres);
    JoinAppend(Segments(a, genres), Segments(b, genres), Separator);
  }

  /** Appending one id appends a separator and that id's segment. */
  lemma GenreNamesSnoc(ids: seq<int>, id: int, genres: seq<Genre>)
    requires |ids| > 0
    ensures GenreNames(ids + [id], genres) == GenreNames(ids, genres) + Separator + Segment(genres, id)
  {
    GenreNamesSplit(ids, [id], genres);
  }

  /**
   * An id that no genre has contributes an empty segment and keeps both of
   * its separators: [28, 999, 12] gives "Action, , Adventure".
   */
  lemma MissingIdKeepsSeparators(genres: seq<Genre>)
    requires genres == [Genre(28, "Action"), Genre(12, "Adventure")]
    ensures GenreNames([28, 999, 12], genres) == "Action, , Adventure"
  {
    assert Segment(genres, 28) == "Action";
    assert Segment(genres, 999) == "";
    assert genres[1..] == [Genre(12, "Adventure")];
    assert FirstGenreName(genres[1..], 12) == Some("Adventure");
    assert Segment(genres, 12) == "Adventure";
    GenreNamesSnoc([28], 999, genres);
    GenreNamesSnoc([28, 999], 12, genres);
    assert [28, 999] + [12] == [28, 999, 12];
    assert [28] + [999] == [28, 999];
    assert "Action" + Separator + "" + Separator + "Adventure" == "Action, , Adventure";
  }

  /** The movie with its genre names written from `genres`; nothing else changes. */
  function Enriched(genres: seq<Genre>, m: Movie): Movie {
    m.(genresNames := GenreNames(m.genreIds, genres))
  }

  /** Enrichment reads only the genre ids and the genre list, and writes only the names. */
  lemma EnrichedDependsOnlyOnIds(genres: seq<Genre>, m: Movie, n: Movie)
    requires m.genreIds == n.genreIds
    ensures Enriched(genres, m).genresNames == Enriched(genres, n).genresNames
    ensures Enriched(genres, m).(genresNames := m.genresNames) == m
  {
  }

  /** Enriching twice with the same genre list gives the same movie as enriching once. */
  lemma EnrichedIdempotent(genres: seq<Genre>, m: Movie)
    ensures Enriched(genres, Enriched(genres, m)) == Enriched(genres, m)
  {
  }

  /** Whether `GenreListToString` throws: a null genre list and at least one id to look up. */
  predicate Throws(genres: Option<seq<Genre>>, m: Movie) {
    genres.None? && m.genreIds != []
  }

  /**
   * `GenreListToString(genres, item)`: builds the names id by id, adding
   * ", " after every segment but the last. `None` stands for the exception
   * LINQ raises when the genre list is null and there is an id to look up.
   */
  method GenreListToString(genres: Option<seq<Genre>>, item: Movie) returns (r: Option<Movie>)
    ensures r.None? <==> Throws(genres, item)
    ensures r.Some? ==> r.value == Enriched(genres.GetOr([]), item)
  {
    var ids := item.genreIds;
    var names := "";
    var i := 0;
    while i < |ids|
      invariant 0 <= i <= |ids|
      invariant i > 0 ==> genres.Some?
      invariant i == 0 ==> names == ""
      invariant 0 < i ==> names == GenreNames(ids[..i], genres.value) + if i < |ids| then Separator else ""
    {
      if genres.None? {
        return None;
      }
      var name := Segment(genres.value, ids[i]);
      name := name + if i < |ids| - 1 then Separator else "";
      if i == 0 {
        assert ids[..1] == [ids[0]];
      } else {
        GenreNamesSnoc(ids[..i], ids[i], genres.value);
        assert ids[..i] + [ids[i]] == ids[..i + 1];
      }
      names := names + name;
      i := i + 1;
    }
    assert i > 0 ==> ids[..i] == ids;
    r := Some(item.(genresNames := names));
  }
}
