/** `data/model/Movie.kt` and `data/model/MovieEntity.kt`: the external movie
    model, the row stored in the `movie` table, and the conversions between
    them. */
module Movies {
  import opened Prelude

  const PosterImageBaseUrl: string := "https://image.tmdb.org/t/p/w342/"

  /** A movie as the API and the screens see it. */
  datatype Movie = Movie(title: string, posterPath: string)

  /** A row of the `movie` table. `id` is the auto-generated primary key, 0
      meaning "let the database choose"; `genreId` is null for top-rated
      rows. */
  datatype MovieEntity = MovieEntity(id: int, title: string, posterPath: string, genreId: Option<string>)

  /** A genre with a provider-specific id. The concrete id strings are not
      part of this model. */
  datatype MovieGenre = Action(id: string) | Animation(id: string)

  /** `Movie.posterUrl`: the image base URL followed by the poster path. */
  function PosterUrl(m: Movie): (url: string)
    ensures |url| == |PosterImageBaseUrl| + |m.posterPath|
    ensures url[..|PosterImageBaseUrl|] == PosterImageBaseUrl
    ensures url[|PosterImageBaseUrl|..] == m.posterPath
  {
    PosterImageBaseUrl + m.posterPath
  }

  /** The poster path a poster URL was built from, if it was built from one. */
  function PosterPathOf(url: string): (path: Option<string>)
    ensures path.Some? <==> |url| >= |PosterImageBaseUrl| && url[..|PosterImageBaseUrl|] == PosterImageBaseUrl
    ensures path.Some? ==> url == PosterImageBaseUrl + path.value
  {
    if |url| >= |PosterImageBaseUrl| && url[..|PosterImageBaseUrl|] == PosterImageBaseUrl
    then Some(url[|PosterImageBaseUrl|..])
    else None
  }

  /** The poster path can be read back from the poster URL. */
  lemma PosterUrlRoundTrip(m: Movie)
    ensures PosterPathOf(PosterUrl(m)) == Some(m.posterPath)
  {
  }

  /** Two movies share a poster URL exactly when they share a poster path. */
  lemma PosterUrlInjective(m1: Movie, m2: Movie)
    ensures PosterUrl(m1) == PosterUrl(m2) <==> m1.posterPath == m2.posterPath
  {
    if PosterUrl(m1) == PosterUrl(m2) {
      PosterUrlRoundTrip(m1);
      PosterUrlRoundTrip(m2);
    }
  }

  /** `Movie.asEntity(genreId = null)`: a row to insert, with the
      auto-generate key 0. */
  function AsEntity(m: Movie, genreId: Option<string> := None): (e: MovieEntity)
    ensures e.id == 0
    ensures e.genreId == genreId
    ensures e.title == m.title && e.posterPath == m.posterPath
  {
    MovieEntity(0, m.title, m.posterPath, genreId)
  }

  /** `MovieEntity.asExternalModel()`: drops the key and the genre. */
  function AsExternalModel(e: MovieEntity): (m: Movie)
    ensures m.title == e.title && m.posterPath == e.posterPath
  {
    Movie(e.title, e.posterPath)
  }

  /** Rows that differ only in key or genre are the same movie. */
  lemma ExternalModelIgnoresKeyAndGenre(e1: MovieEntity, e2: MovieEntity)
    ensures AsExternalModel(e1) == AsExternalModel(e2) <==>
      e1.title == e2.title && e1.posterPath == e2.posterPath
  {
  }

  /** Converting a movie to a row of any genre and back gives the movie. */
  lemma AsEntityRoundTrip(m: Movie, genreId: Option<string>)
    ensures AsExternalModel(AsEntity(m, genreId)) == m
  {
  }

  /** Converting a row to a movie and back, keeping its genre, gives the row
      with its key reset to "auto-generate". */
  lemma AsExternalModelRoundTrip(e: MovieEntity)
    ensures AsEntity(AsExternalModel(e), e.genreId) == e.(id := 0)
  {
  }

  /** `movies.map { it.asEntity(genreId) }`. */
  function AsEntities(ms: seq<Movie>, genreId: Option<string>): (es: seq<MovieEntity>)
    ensures |es| == |ms|
    ensures forall i :: 0 <= i < |es| ==> es[i].id == 0 && es[i].genreId == genreId
    ensures Map(AsExternalModel, es) == ms
  {
    Map((m: Movie) => AsEntity(m, genreId), ms)
  }

  /** `entities.map(MovieEntity::asExternalModel)`. */
  function AsExternalModels(es: seq<MovieEntity>): (ms: seq<Movie>)
    ensures |ms| == |es|
    ensures forall i :: 0 <= i < |es| ==> ms[i].title == es[i].title && ms[i].posterPath == es[i].posterPath
  {
    Map(AsExternalModel, es)
  }
}
