/**
 * The catalog client of the recommendation handler: it resolves each
 * recommended title to a catalog id, keeps the directing credits, shapes the
 * image lists and assembles one output record per recommendation.  Every HTTP
 * round trip with its JSON decoding is a function parameter (named `fetch...`) that
 * yields the decoded response or the error that `io.ReadAll` or
 * `json.Unmarshal` reported.
 */
module Tmdb {
  import opened Wrappers
  import opened GoStrings
  import GoRuntime

  const ImagePrefix := "https://image.tmdb.org/t/p/w500"
  /** How many posters and how many backdrops a record keeps. */
  const MaxImages := 4

  /**
   * The fixed parts of the search URL template around `{query}` and before
   * `{year}`, each spelt in short pieces: a proof that a character such as a
   * space or a brace is absent then checks a few short literals, which keeps
   * those proofs cheap.
   */
  const SearchUrlHead := "https://api.themo" + "viedb.org/3/sear" + "ch/movie?query="
  const SearchUrlMiddle := "&include_adult=t" + "rue&page=1&langu" + "age=en-US&year="
  /** `https://api.themoviedb.org/3/search/movie?query={query}&include_adult=true&page=1&language=en-US&year={year}` */
  const MovieSearchUrl := SearchUrlHead + "{query}" + SearchUrlMiddle + "{year}"

  /** One entry of a title search (`movieIdResponse`); the float64 popularity is only compared, so a `real` stands for it. */
  datatype SearchResult = SearchResult(id: int, title: string, popularity: real)
  datatype SearchResponse = SearchResponse(results: seq<SearchResult>)

  datatype Genre = Genre(name: string)
  datatype Movie = Movie(
    genres: seq<Genre>, id: int, originalLanguage: string, originalTitle: string,
    overview: string, releaseDate: string, title: string)

  datatype Person = Person(name: string, job: string)
  datatype Credits = Credits(crew: seq<Person>)

  datatype Image = Image(filePath: string)
  datatype MovieImages = MovieImages(backdrops: seq<Image>, posters: seq<Image>)

  /** The output unit of the handler (`ResultRecommendedFilm`). */
  datatype RecommendedFilm = RecommendedFilm(
    name: string, year: string, genres: seq<string>, directedBy: seq<string>,
    description: string, movieImages: MovieImages)

  datatype TmdbError =
    | FetchFailed(cause: string)           // reading or decoding a response failed
    | EmptyResults(recommendedFilm: string) // the title search found nothing
    | DirectorNotFound                      // no crew entry has the job "Director"

  /** What one lookup task sends on the channel (`filmData`): the fields its sub-fetches filled in and the error left in `err`. */
  datatype FilmData = FilmData(
    movieId: int, movie: Movie, directors: seq<string>, images: MovieImages, err: Option<TmdbError>)

  // ---------------------------------------------------------------------
  // Title search
  // ---------------------------------------------------------------------

  /** The search URL for a title: `{query}` replaced by the title, then every space replaced by `%20`. */
  function SearchUrl(recommendedFilm: string): (url: string)
    ensures forall k :: 0 <= k < |url| ==> url[k] != ' '
    ensures ' ' !in recommendedFilm ==> url == SearchUrlHead + recommendedFilm + SearchUrlMiddle + "{year}"
  {
    var query := ReplaceAll(MovieSearchUrl, "{query}", recommendedFilm);
    var url := ReplaceAll(query, " ", "%20");
    ReplaceAllRemovesAll(query, " ", "%20");
    NoOccurrenceOfChar(url, ' ');
    QuerySubstituted(recommendedFilm);
    SpacesEscaped(recommendedFilm);
    if ' ' in recommendedFilm then url
    else
      ReplaceCharAbsent(recommendedFilm, ' ', "%20");
      url
  }

  /**
   * The search URL is the fixed head, the title with each space written as
   * `%20` and every other character kept, and the fixed tail with `{year}`
   * left unsubstituted.
   */
  lemma SearchUrlShape(recommendedFilm: string)
    ensures SearchUrl(recommendedFilm) ==
      SearchUrlHead + ReplaceAll(recommendedFilm, " ", "%20") + SearchUrlMiddle + "{year}"
  {
    QuerySubstituted(recommendedFilm);
    SpacesEscaped(recommendedFilm);
  }

  /** Substituting the title for `{query}` touches nothing else: the head has no `{` and `{year}` is too short to match. */
  lemma QuerySubstituted(recommendedFilm: string)
    ensures ReplaceAll(MovieSearchUrl, "{query}", recommendedFilm) ==
      SearchUrlHead + (recommendedFilm + (SearchUrlMiddle + "{year}"))
  {
    var q, y := "{query}", "{year}";
    assert '{' !in SearchUrlHead && '{' !in SearchUrlMiddle;
    assert MovieSearchUrl == SearchUrlHead + (q + (SearchUrlMiddle + y));
    ReplaceAllSkipsPrefix(SearchUrlHead, q + (SearchUrlMiddle + y), q, recommendedFilm);
    ReplaceAllAtFront(SearchUrlMiddle + y, q, recommendedFilm);
    ReplaceAllSkipsPrefix(SearchUrlMiddle, y, q, recommendedFilm);
    assert ReplaceAll(y, q, recommendedFilm) == y;
  }

  /** Replacing spaces after the substitution changes only the title: the fixed parts have no space. */
  lemma SpacesEscaped(recommendedFilm: string)
    ensures ReplaceAll(SearchUrlHead + (recommendedFilm + (SearchUrlMiddle + "{year}")), " ", "%20") ==
      SearchUrlHead + ReplaceAll(recommendedFilm, " ", "%20") + SearchUrlMiddle + "{year}"
  {
    var tail := SearchUrlMiddle + "{year}";
    assert ' ' !in SearchUrlHead && ' ' !in tail;
    ReplaceCharBetween(SearchUrlHead, recommendedFilm, tail, ' ', "%20");
  }

  /** The title search results whose title is exactly `name` (`filterResponseResultByName`), in result order. */
  function TitleMatches(results: seq<SearchResult>, name: string): seq<SearchResult>
    decreases |results|
  {
    if results == [] then []
    else
      var last := results[|results| - 1];
      TitleMatches(results[..|results| - 1], name) + (if last.title == name then [last] else [])
  }

  /** `filterResponseResultByName`: appends each result whose title equals `filmName`. */
  method FilterResponseResultByName(results: seq<SearchResult>, filmName: string) returns (filteredFilms: seq<SearchResult>)
    ensures filteredFilms == TitleMatches(results, filmName)
  {
    filteredFilms := [];
    for i := 0 to |results|
      invariant filteredFilms == TitleMatches(results[..i], filmName)
    {
      assert results[..i + 1][..i] == results[..i];
      if results[i].title == filmName {
        filteredFilms := filteredFilms + [results[i]];
      }
    }
    assert results[..|results|] == results;
  }

  /** The matches are exactly the results with that title. */
  lemma {:induction false} TitleMatchesMembers(results: seq<SearchResult>, name: string)
    ensures forall x :: x in TitleMatches(results, name) <==> x in results && x.title == name
    decreases |results|
  {
    if results != [] {
      var init := results[..|results| - 1];
      TitleMatchesMembers(init, name);
      assert results == init + [results[|results| - 1]];
    }
  }

  /** The first result always matches its own title, so the filtered list of a non-empty search is non-empty. */
  lemma FirstResultMatchesItself(results: seq<SearchResult>)
    requires |results| > 0
    ensures results[0] in TitleMatches(results, results[0].title)
  {
  }

  /**
   * The head of the candidates after `sort.Slice` by descending popularity: an
   * entry whose popularity no other entry exceeds (the sort is not stable, so
   * among equally popular entries the source may return any; this model takes
   * the first).
   */
  function MostPopular(films: seq<SearchResult>): (best: SearchResult)
    requires |films| > 0
    ensures best in films
    ensures forall f :: f in films ==> f.popularity <= best.popularity
  {
    if |films| == 1 then films[0]
    else
      var rest := MostPopular(films[1..]);
      if films[0].popularity >= rest.popularity then films[0] else rest
  }

  /**
   * Results "X" (popularity 5), "X" (popularity 9), "Y" (popularity 20):
   * the filter on the first title leaves the two "X" entries and the more
   * popular one is chosen, not the most popular overall.
   */
  lemma TieBreakExample()
    ensures var results := [SearchResult(1, "X", 5.0), SearchResult(2, "X", 9.0), SearchResult(3, "Y", 20.0)];
      MostPopular(TitleMatches(results, results[0].title)).id == 2
  {
    var results := [SearchResult(1, "X", 5.0), SearchResult(2, "X", 9.0), SearchResult(3, "Y", 20.0)];
    var r1, r2 := results[..1], results[..2];
    assert r1[..0] == [];
    assert TitleMatches(r1, "X") == [results[0]];
    assert r2[..1] == r1;
    assert TitleMatches(r2, "X") == [results[0], results[1]];
    assert results[..2] == r2;
    assert TitleMatches(results, "X") == [results[0], results[1]];
  }

  /**
   * `searchForMovie`: builds the search URL, fails on a read or decode error
   * and on an empty result list, and otherwise returns the id of the most
   * popular result among those titled exactly like the first result.
   */
  method SearchForMovie(recommendedFilm: string, fetchSearch: string -> Result<SearchResponse, TmdbError>)
    returns (id: int, err: Option<TmdbError>)
    ensures var fetched := fetchSearch(SearchUrl(recommendedFilm));
      && (fetched.Err? ==> id == 0 && err == Some(fetched.error))
      && (fetched.Ok? && fetched.value.results == [] ==> id == 0 && err == Some(EmptyResults(recommendedFilm)))
      && (fetched.Ok? && fetched.value.results != [] ==>
            var results := fetched.value.results;
            && err == None
            && (exists k :: 0 <= k < |results| && results[k].id == id && results[k].title == results[0].title
                 && forall j :: 0 <= j < |results| && results[j].title == results[0].title ==>
                      results[j].popularity <= results[k].popularity))
  {
    var url := SearchUrl(recommendedFilm);
    var fetched := fetchSearch(url);
    if fetched.Err? {
      return 0, Some(fetched.error);
    }
    var results := fetched.value.results;
    if |results| == 0 {
      return 0, Some(EmptyResults(recommendedFilm));
    }
    var filteredFilms := FilterResponseResultByName(results, results[0].title);
    FirstResultMatchesItself(results);
    TitleMatchesMembers(results, results[0].title);
    var best := MostPopular(filteredFilms);
    var k :| 0 <= k < |results| && results[k] == best;
    forall j | 0 <= j < |results| && results[j].title == results[0].title
      ensures results[j].popularity <= results[k].popularity
    {
      assert results[j] in filteredFilms;
    }
    id, err := best.id, None;
  }

  // ---------------------------------------------------------------------
  // Credits
  // ---------------------------------------------------------------------

  /** The names of the crew entries whose job is exactly "Director", in crew order. */
  function DirectorNames(crew: seq<Person>): seq<string>
    decreases |crew|
  {
    if crew == [] then []
    else
      var last := crew[|crew| - 1];
      DirectorNames(crew[..|crew| - 1]) + (if last.job == "Director" then [last.name] else [])
  }

  /** `searchForDirector` after the response is decoded: the director names, or an error with an empty slice. */
  method SearchForDirector(movieId: int, fetchCredits: int -> Result<Credits, TmdbError>)
    returns (directors: seq<string>, err: Option<TmdbError>)
    ensures var fetched := fetchCredits(movieId);
      && (fetched.Err? ==> directors == [] && err == Some(fetched.error))
      && (fetched.Ok? && DirectorNames(fetched.value.crew) == [] ==> directors == [] && err == Some(DirectorNotFound))
      && (fetched.Ok? && DirectorNames(fetched.value.crew) != [] ==> directors == DirectorNames(fetched.value.crew) && err == None)
  {
    var fetched := fetchCredits(movieId);
    if fetched.Err? {
      return [], Some(fetched.error);
    }
    var crew := fetched.value.crew;
    directors := [];
    for i := 0 to |crew|
      invariant directors == DirectorNames(crew[..i])
    {
      assert crew[..i + 1][..i] == crew[..i];
      if crew[i].job == "Director" {
        directors := directors + [crew[i].name];
      }
    }
    assert crew[..|crew|] == crew;
    if |directors| == 0 {
      return [], Some(DirectorNotFound);
    }
    err := None;
  }

  /** A name is a director name exactly when some crew entry with that name has the job "Director". */
  lemma {:induction false} DirectorNamesMembers(crew: seq<Person>)
    ensures forall name :: name in DirectorNames(crew) <==>
      exists k :: 0 <= k < |crew| && crew[k].job == "Director" && crew[k].name == name
    decreases |crew|
  {
    if crew != [] {
      var init := crew[..|crew| - 1];
      DirectorNamesMembers(init);
      forall name ensures name in DirectorNames(crew) <==>
        exists k :: 0 <= k < |crew| && crew[k].job == "Director" && crew[k].name == name
      {
        if name in DirectorNames(init) {
          var k :| 0 <= k < |init| && init[k].job == "Director" && init[k].name == name;
          assert crew[k] == init[k];
        }
        if exists k :: 0 <= k < |crew| && crew[k].job == "Director" && crew[k].name == name {
          var k :| 0 <= k < |crew| && crew[k].job == "Director" && crew[k].name == name;
          if k < |init| { assert init[k] == crew[k]; }
        }
      }
    }
  }

  /** The filter keeps crew order: the directors of two crew lists one after the other are the two results one after the other. */
  lemma {:induction false} DirectorNamesConcat(a: seq<Person>, b: seq<Person>)
    ensures DirectorNames(a + b) == DirectorNames(a) + DirectorNames(b)
    decreases |b|
  {
    if b == [] {
      assert a + b == a;
    } else {
      var init := b[..|b| - 1];
      DirectorNamesConcat(a, init);
      assert (a + b)[..|a + b| - 1] == a + init;
    }
  }

  /** Entries "A" (Director), "B" (Producer), "C" (Director) give exactly ["A", "C"]. */
  lemma DirectorNamesExample()
    ensures DirectorNames([Person("A", "Director"), Person("B", "Producer"), Person("C", "Director")]) == ["A", "C"]
  {
    var crew := [Person("A", "Director"), Person("B", "Producer"), Person("C", "Director")];
    var c1, c2 := crew[..1], crew[..2];
    assert c1[..0] == [];
    assert DirectorNames(c1) == ["A"];
    assert c2[..1] == c1;
    assert DirectorNames(c2) == ["A"];
    assert crew[..2] == c2;
  }

  // ---------------------------------------------------------------------
  // Images
  // ---------------------------------------------------------------------

  /** `shaped` keeps the first `MaxImages` entries of `original`, each with `ImagePrefix` put before its path. */
  ghost predicate ShapedImages(original: seq<Image>, shaped: seq<Image>)
  {
    && |shaped| == GoRuntime.Min(|original|, MaxImages)
    && forall k :: 0 <= k < |shaped| ==> shaped[k] == Image(ImagePrefix + original[k].filePath)
  }

  /**
   * One of the two loops of `getImages`: rewrites the path of each entry in
   * place until index 4, where it re-slices to 4 entries and stops.  Returns
   * the length of the re-sliced list, which keeps the backing array.
   */
  method PrefixFirstImages(images: array<Image>) returns (kept: nat)
    modifies images
    ensures kept == GoRuntime.Min(images.Length, MaxImages)
    ensures forall k :: 0 <= k < kept ==> images[k] == Image(ImagePrefix + old(images[k]).filePath)
    ensures forall k :: kept <= k < images.Length ==> images[k] == old(images[k])
  {
    kept := images.Length;
    var index := 0;
    while index < images.Length
      invariant 0 <= index <= images.Length && index <= MaxImages
      invariant kept == images.Length
      invariant forall k :: 0 <= k < index ==> images[k] == Image(ImagePrefix + old(images[k]).filePath)
      invariant forall k :: index <= k < images.Length ==> images[k] == old(images[k])
    {
      if index == MaxImages {
        kept := MaxImages;
        break;
      }
      var image := images[index];
      image := image.(filePath := ImagePrefix + image.filePath);
      images[index] := image;
      index := index + 1;
    }
  }

  /** The decoded list of a response as the slice `json.Unmarshal` allocates for it. */
  method ToArray(s: seq<Image>) returns (a: array<Image>)
    ensures fresh(a) && a[..] == s
  {
    a := new Image[|s|](i requires 0 <= i < |s| => s[i]);
  }

  /** `getImages` after the response is decoded: at most 4 posters and 4 backdrops, each path prefixed. */
  method GetImages(movieId: int, fetchImages: int -> Result<MovieImages, TmdbError>)
    returns (images: MovieImages, err: Option<TmdbError>)
    ensures var fetched := fetchImages(movieId);
      && (fetched.Err? ==> images == MovieImages([], []) && err == Some(fetched.error))
      && (fetched.Ok? ==>
            && err == None
            && ShapedImages(fetched.value.posters, images.posters)
            && ShapedImages(fetched.value.backdrops, images.backdrops))
  {
    var fetched := fetchImages(movieId);
    if fetched.Err? {
      return MovieImages([], []), Some(fetched.error);
    }
    var posters := ToArray(fetched.value.posters);
    var keptPosters := PrefixFirstImages(posters);
    var backdrops := ToArray(fetched.value.backdrops);
    var keptBackdrops := PrefixFirstImages(backdrops);
    images := MovieImages(backdrops[..keptBackdrops], posters[..keptPosters]);
    err := None;
  }

  /** Six posters give exactly four, each prefixed; the fifth and sixth are gone. */
  lemma SixPostersKeepFour(original: seq<Image>, shaped: seq<Image>)
    requires |original| == 6 && ShapedImages(original, shaped)
    ensures |shaped| == 4
    ensures forall k :: 0 <= k < 4 ==> shaped[k].filePath == ImagePrefix + original[k].filePath
  {
  }

  // ---------------------------------------------------------------------
  // Records
  // ---------------------------------------------------------------------

  /** The year of a release date: its first four characters, or empty when it is shorter than that. */
  function YearOf(releaseDate: string): (year: string)
    ensures |year| == (if |releaseDate| >= 4 then 4 else 0)
    ensures HasPrefix(releaseDate, year)
  {
    if |releaseDate| >= 4 then releaseDate[..4] else ""
  }

  /** "1999-03-12" has the year "1999". */
  lemma YearExample()
    ensures YearOf("1999-03-12") == "1999"
  {
  }

  /** The genre names in catalog order. */
  function GenreNames(genres: seq<Genre>): (names: seq<string>)
    ensures |names| == |genres|
    ensures forall i :: 0 <= i < |genres| ==> names[i] == genres[i].name
    decreases |genres|
  {
    if genres == [] then [] else GenreNames(genres[..|genres| - 1]) + [genres[|genres| - 1].name]
  }

  /**
   * The record for one recommendation: named by the recommended string, not
   * by the catalog title, with the year, genres and overview of the details,
   * the given directors and images.
   */
  function FilmRecord(movie: Movie, directors: seq<string>, images: MovieImages, recommendedFilm: string): RecommendedFilm
  {
    RecommendedFilm(recommendedFilm, YearOf(movie.releaseDate), GenreNames(movie.genres),
                    directors, movie.overview, images)
  }

  /** A record carries the recommended string as its name and the catalog genres as its genre names. */
  lemma FilmRecordNamedByRecommendation(movie: Movie, directors: seq<string>, images: MovieImages, recommendedFilm: string)
    ensures var r := FilmRecord(movie, directors, images, recommendedFilm);
      && r.name == recommendedFilm
      && |r.genres| == |movie.genres|
      && (forall i :: 0 <= i < |movie.genres| ==> r.genres[i] == movie.genres[i].name)
      && (|movie.releaseDate| >= 4 ==> r.year == movie.releaseDate[..4])
      && (|movie.releaseDate| < 4 ==> r.year == "")
  {
  }

  /** The genre loop shared by `constructFilm` and `constructFilmAndAppend`. */
  method CollectGenreNames(genres: seq<Genre>) returns (genreNames: seq<string>)
    ensures genreNames == GenreNames(genres)
  {
    genreNames := [];
    for i := 0 to |genres|
      invariant genreNames == GenreNames(genres[..i])
    {
      assert genres[..i + 1][..i] == genres[..i];
      genreNames := genreNames + [genres[i].name];
    }
    assert genres[..|genres|] == genres;
  }

  /** `constructFilm`. */
  method ConstructFilm(movie: Movie, directors: seq<string>, images: MovieImages, recommendedFilm: string)
    returns (film: RecommendedFilm)
    ensures film == FilmRecord(movie, directors, images, recommendedFilm)
  {
    var genreNames := CollectGenreNames(movie.genres);
    var year := "";
    if |movie.releaseDate| >= 4 {
      year := movie.releaseDate[..4];
    }
    film := RecommendedFilm(recommendedFilm, year, genreNames, directors, movie.overview, images);
  }

  /**
   * `constructFilmAndAppend` (not called by the handler): like `constructFilm`
   * but it slices `ReleaseDate[0:4]` unguarded, which panics on a release date
   * shorter than four characters.
   */
  method ConstructFilmAndAppend(
    movieDetails: Movie, normalizedFilms: seq<RecommendedFilm>, recommendedFilm: string,
    directors: seq<string>, images: MovieImages)
    returns (r: Result<seq<RecommendedFilm>, GoRuntime.Panic>)
    ensures |movieDetails.releaseDate| < 4 <==> r.Err?
    ensures r.Err? ==> r.error == GoRuntime.SliceBoundsOutOfRange
    ensures r.Ok? ==> r.value == normalizedFilms + [FilmRecord(movieDetails, directors, images, recommendedFilm)]
  {
    var genreNames := CollectGenreNames(movieDetails.genres);
    if |movieDetails.releaseDate| < 4 {
      return Err(GoRuntime.SliceBoundsOutOfRange);
    }
    var film := RecommendedFilm(recommendedFilm, movieDetails.releaseDate[..4], genreNames,
                                directors, movieDetails.overview, images);
    r := Ok(normalizedFilms + [film]);
  }

  /** For an unreleased film (empty release date) `constructFilm` gives the empty year where `constructFilmAndAppend` panics. */
  lemma EmptyReleaseDateHasEmptyYear(movie: Movie, directors: seq<string>, images: MovieImages, recommendedFilm: string)
    requires movie.releaseDate == ""
    ensures FilmRecord(movie, directors, images, recommendedFilm).year == ""
  {
  }

  // ---------------------------------------------------------------------
  // Collecting the lookups (`NormalizeFilms`, lines 71-79)
  // ---------------------------------------------------------------------

  /**
   * The result of the collection loop over the first `|arrivals|` messages
   * taken from the channel: the first error in arrival order, or one record
   * per message, the i-th message's data named by `recommendedFilms[i]`.
   */
  function Collected(recommendedFilms: seq<string>, arrivals: seq<FilmData>): (r: Result<seq<RecommendedFilm>, TmdbError>)
    requires |arrivals| <= |recommendedFilms|
    ensures r.Ok? ==> |r.value| == |arrivals|
    ensures r.Err? ==> exists k :: 0 <= k < |arrivals| && arrivals[k].err == Some(r.error)
    decreases |arrivals|
  {
    if arrivals == [] then Ok([])
    else
      var n := |arrivals| - 1;
      var before := Collected(recommendedFilms, arrivals[..n]);
      if before.Err? then before
      else if arrivals[n].err.Some? then Err(arrivals[n].err.value)
      else Ok(before.value + [FilmRecord(arrivals[n].movie, arrivals[n].directors, arrivals[n].images, recommendedFilms[n])])
  }

  /**
   * The collection loop of `NormalizeFilms` over the messages in the order they
   * arrive (each of the `len(recommendedFilms)` tasks sends exactly one).  The
   * JSON encoding of the records is not modelled.
   */
  method CollectFilms(recommendedFilms: seq<string>, arrivals: seq<FilmData>)
    returns (r: Result<seq<RecommendedFilm>, TmdbError>)
    requires |arrivals| == |recommendedFilms|
    ensures r == Collected(recommendedFilms, arrivals)
  {
    var normalizedFilms := [];
    for i := 0 to |recommendedFilms|
      invariant Collected(recommendedFilms, arrivals[..i]) == Ok(normalizedFilms)
    {
      var data := arrivals[i];
      assert arrivals[..i + 1][..i] == arrivals[..i];
      if data.err.Some? {
        CollectedKeepsError(recommendedFilms, arrivals, i + 1);
        assert arrivals[..i + 1][i] == data;
        return Err(data.err.value);
      }
      var normalizedFilm := ConstructFilm(data.movie, data.directors, data.images, recommendedFilms[i]);
      normalizedFilms := normalizedFilms + [normalizedFilm];
    }
    assert arrivals[..|arrivals|] == arrivals;
    r := Ok(normalizedFilms);
  }

  /** Once the collection has failed on a prefix of the messages, taking more messages keeps that error. */
  lemma {:induction false} CollectedKeepsError(recommendedFilms: seq<string>, arrivals: seq<FilmData>, i: nat)
    requires i <= |arrivals| <= |recommendedFilms|
    requires Collected(recommendedFilms, arrivals[..i]).Err?
    ensures Collected(recommendedFilms, arrivals) == Collected(recommendedFilms, arrivals[..i])
    decreases |arrivals| - i
  {
    if i < |arrivals| {
      var n := |arrivals| - 1;
      assert arrivals[..n][..i] == arrivals[..i];
      CollectedKeepsError(recommendedFilms, arrivals[..n], i);
      assert arrivals[..n] == arrivals[..|arrivals|][..n];
    } else {
      assert arrivals[..i] == arrivals;
    }
  }

  /** A message with an error makes the whole collection fail. */
  lemma {:induction false} CollectedFailsOnError(recommendedFilms: seq<string>, arrivals: seq<FilmData>, k: int)
    requires |arrivals| <= |recommendedFilms|
    requires 0 <= k < |arrivals| && arrivals[k].err.Some?
    ensures Collected(recommendedFilms, arrivals).Err?
    decreases |arrivals|
  {
    var n := |arrivals| - 1;
    if k < n {
      CollectedFailsOnError(recommendedFilms, arrivals[..n], k);
    }
  }

  /** A failed collection carries the error of the first message that has one. */
  lemma {:induction false} CollectedFirstError(recommendedFilms: seq<string>, arrivals: seq<FilmData>)
    requires |arrivals| <= |recommendedFilms|
    requires Collected(recommendedFilms, arrivals).Err?
    ensures exists k :: 0 <= k < |arrivals| && arrivals[k].err == Some(Collected(recommendedFilms, arrivals).error)
                        && forall j :: 0 <= j < k ==> arrivals[j].err.None?
    decreases |arrivals|
  {
    var n := |arrivals| - 1;
    var init := arrivals[..n];
    var before := Collected(recommendedFilms, init);
    if before.Err? {
      CollectedFirstError(recommendedFilms, init);
      var k :| 0 <= k < n && init[k].err == Some(before.error) && forall j :: 0 <= j < k ==> init[j].err.None?;
      assert forall j :: 0 <= j <= k ==> init[j] == arrivals[j];
    } else {
      forall j | 0 <= j < n
        ensures arrivals[j].err.None?
      {
        if arrivals[j].err.Some? {
          assert init[j] == arrivals[j];
          CollectedFailsOnError(recommendedFilms, init, j);
        }
      }
    }
  }

  /**
   * The collection fails exactly when some message carries an error, and then
   * with the error of the first such message in arrival order.
   */
  lemma CollectedFailsFast(recommendedFilms: seq<string>, arrivals: seq<FilmData>)
    requires |arrivals| <= |recommendedFilms|
    ensures Collected(recommendedFilms, arrivals).Err? <==> exists k :: 0 <= k < |arrivals| && arrivals[k].err.Some?
    ensures Collected(recommendedFilms, arrivals).Err? ==>
      exists k :: 0 <= k < |arrivals| && arrivals[k].err == Some(Collected(recommendedFilms, arrivals).error)
        && forall j :: 0 <= j < k ==> arrivals[j].err.None?
  {
    if Collected(recommendedFilms, arrivals).Err? {
      CollectedFirstError(recommendedFilms, arrivals);
    } else {
      forall k | 0 <= k < |arrivals| && arrivals[k].err.Some?
        ensures false
      {
        CollectedFailsOnError(recommendedFilms, arrivals, k);
      }
    }
  }

  /**
   * A successful collection has one record per message, the i-th built from
   * the i-th message to arrive and named `recommendedFilms[i]`, whichever
   * title that message was looked up for.
   */
  lemma {:induction false} CollectedPairsByArrival(recommendedFilms: seq<string>, arrivals: seq<FilmData>)
    requires |arrivals| <= |recommendedFilms|
    requires Collected(recommendedFilms, arrivals).Ok?
    ensures var films := Collected(recommendedFilms, arrivals).value;
      && |films| == |arrivals|
      && forall i :: 0 <= i < |arrivals| ==>
           films[i] == FilmRecord(arrivals[i].movie, arrivals[i].directors, arrivals[i].images, recommendedFilms[i])
    decreases |arrivals|
  {
    if arrivals != [] {
      var n := |arrivals| - 1;
      var init := arrivals[..n];
      CollectedPairsByArrival(recommendedFilms, init);
      assert forall k :: 0 <= k < n ==> init[k] == arrivals[k];
    }
  }

  /** Two details responses, for the titles "A" and "B". */
  const MovieA := Movie([], 1, "en", "A", "overview of A", "2001-01-01", "A")
  const MovieB := Movie([], 2, "en", "B", "overview of B", "2002-02-02", "B")

  /**
   * When the lookup for the second title "B" finishes first, the record named
   * "A" carries the overview of "B".
   */
  lemma CollectedMislabelsOutOfOrderArrivals()
    ensures var arrivals := [FilmData(2, MovieB, ["d"], MovieImages([], []), None),
                             FilmData(1, MovieA, ["d"], MovieImages([], []), None)];
      && Collected(["A", "B"], arrivals).Ok?
      && Collected(["A", "B"], arrivals).value[0].name == "A"
      && Collected(["A", "B"], arrivals).value[0].description == "overview of B"
  {
    var arrivals := [FilmData(2, MovieB, ["d"], MovieImages([], []), None),
                     FilmData(1, MovieA, ["d"], MovieImages([], []), None)];
    var rec := ["A", "B"];
    var a1 := arrivals[..1];
    assert a1[..0] == [] && a1[0] == arrivals[0];
    assert Collected(rec, a1[..0]).value == [];
    var first := FilmRecord(MovieB, ["d"], MovieImages([], []), "A");
    assert Collected(rec, a1).value == [first];
    assert a1 == arrivals[..|arrivals| - 1];
    var second := FilmRecord(MovieA, ["d"], MovieImages([], []), "B");
    assert Collected(rec, arrivals).value == [first, second];
  }

  /** A message in the corrected collection: the data of one lookup tagged with the input position it was launched for. */
  datatype Arrival = Arrival(index: nat, data: FilmData)

  /** The messages of `n` tasks: each input position appears on exactly one message. */
  ghost predicate IsArrivalOrder(arrivals: seq<Arrival>, n: nat)
  {
    && |arrivals| == n
    && (forall k :: 0 <= k < n ==> arrivals[k].index < n)
    && (forall k, l :: 0 <= k < l < n ==> arrivals[k].index != arrivals[l].index)
    && (forall p :: 0 <= p < n ==> p in Indices(arrivals))
  }

  /** The input positions the messages are tagged with. */
  ghost function Indices(arrivals: seq<Arrival>): set<nat>
  {
    set k | 0 <= k < |arrivals| :: arrivals[k].index
  }

  /**
   * The collection as evidently intended: fail fast on the first error in
   * arrival order, otherwise put each message's record at the input position
   * it is tagged with, named by the title at that position.
   */
  method CollectFilmsInInputOrder(recommendedFilms: seq<string>, arrivals: seq<Arrival>)
    returns (r: Result<seq<RecommendedFilm>, TmdbError>)
    requires IsArrivalOrder(arrivals, |recommendedFilms|)
    ensures r.Err? <==> exists k :: 0 <= k < |arrivals| && arrivals[k].data.err.Some?
    ensures r.Err? ==>
      exists k :: 0 <= k < |arrivals| && arrivals[k].data.err == Some(r.error)
        && forall j :: 0 <= j < k ==> arrivals[j].data.err.None?
    ensures r.Ok? ==> |r.value| == |recommendedFilms|
    ensures r.Ok? ==>
      forall k :: 0 <= k < |arrivals| ==>
        var a := arrivals[k];
        r.value[a.index] == FilmRecord(a.data.movie, a.data.directors, a.data.images, recommendedFilms[a.index])
  {
    var n := |recommendedFilms|;
    var slots := new RecommendedFilm[n](_ => RecommendedFilm("", "", [], [], "", MovieImages([], [])));
    for i := 0 to n
      invariant forall j :: 0 <= j < i ==> arrivals[j].data.err.None?
      invariant forall j :: 0 <= j < i ==>
        var a := arrivals[j];
        slots[a.index] == FilmRecord(a.data.movie, a.data.directors, a.data.images, recommendedFilms[a.index])
    {
      var a := arrivals[i];
      if a.data.err.Some? {
        return Err(a.data.err.value);
      }
      var film := ConstructFilm(a.data.movie, a.data.directors, a.data.images, recommendedFilms[a.index]);
      slots[a.index] := film;
    }
    r := Ok(slots[..]);
  }
}
