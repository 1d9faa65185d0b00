/** `data/repo/OfflineFirstMovieRepository.kt`: the offline-first repository.
    The screens read the `movie` table; a partition found empty is refreshed
    from the API before the (empty) list goes downstream; a refresh replaces
    the partition with the fetched list in shuffled order.

    The API call is an input (`Fetch`): the list it returns or the exception
    it throws. `shuffled()` is an input too: any permutation of the fetched
    list. */
module Repository {
  import opened Prelude
  import opened Movies
  import opened MovieDao
  import Results

  /** What the API call gives: the movie list, or the exception it throws. */
  datatype Fetch = Fetched(movies: seq<Movie>) | FetchFailed(cause: Results.Cause)

  /** How a refresh ends: normally, or by rethrowing the API's exception. */
  datatype RefreshOutcome = Refreshed | RefreshFailed(cause: Results.Cause)

  /** `shuffled` is a possible result of `shuffled()` on the fetched list. */
  predicate IsShuffleOf(shuffled: seq<Movie>, fetch: Fetch)
  {
    fetch.Fetched? ==> multiset(shuffled) == multiset(fetch.movies)
  }

  /** `refreshTopRated()`: fetch, shuffle, then `deleteAndInsert` with no
      genre id. A failed fetch throws before the table is touched. */
  function RefreshTopRated(db: Db, fetch: Fetch, shuffled: seq<Movie>): (res: (Db, RefreshOutcome))
    requires IsShuffleOf(shuffled, fetch)
    ensures fetch.FetchFailed? ==> res == (db, RefreshFailed(fetch.cause))
    ensures fetch.Fetched? ==> res.1 == Refreshed && |res.0.rows| == |fetch.movies|
  {
    match fetch
    case FetchFailed(c) => (db, RefreshFailed(c))
    case Fetched(movies) =>
      var db' := DeleteAndInsert(db, None, AsEntities(shuffled, None));
      assert |db'.rows| == |shuffled| by {
        assert |multiset(shuffled)| == |multiset(movies)|;
        assert db'.rows == InsertOrIgnoreMovies(Db([], db.lastId), AsEntities(shuffled, None)).0.rows;
        RowCountAfterInsert(Db([], db.lastId), AsEntities(shuffled, None));
      }
      (db', Refreshed)
  }

  /** `refreshGenre(genre)`: fetch the genre's list, shuffle it, then
      `deleteAndInsert` it tagged with the genre id. */
  function RefreshGenre(db: Db, genre: MovieGenre, fetch: Fetch, shuffled: seq<Movie>): (res: (Db, RefreshOutcome))
    requires IsShuffleOf(shuffled, fetch)
    ensures fetch.FetchFailed? ==> res == (db, RefreshFailed(fetch.cause))
    ensures fetch.Fetched? ==> res.1 == Refreshed
  {
    match fetch
    case FetchFailed(c) => (db, RefreshFailed(c))
    case Fetched(_) => (DeleteAndInsert(db, Some(genre.id), AsEntities(shuffled, Some(genre.id))), Refreshed)
  }

  /** Key-0 rows are never ignored: each adds one row. */
  lemma {:induction false} RowCountAfterInsert(db: Db, movies: seq<MovieEntity>)
    requires AutoKeyed(movies)
    ensures |InsertOrIgnoreMovies(db, movies).0.rows| == |db.rows| + |movies|
    decreases |movies|
  {
    if |movies| > 0 {
      var first := InsertOne(db, movies[0]);
      assert first.0 == Db(db.rows + [movies[0].(id := db.lastId + 1)], db.lastId + 1);
      RowCountAfterInsert(first.0, movies[1..]);
    }
  }

  /** Rows whose contents are a list of movies tagged `genreId` are, read
      back, that list, and all carry `genreId`. */
  lemma StoredMovies(rows: seq<MovieEntity>, ms: seq<Movie>, genreId: Option<string>)
    requires Map(Content, rows) == AsEntities(ms, genreId)
    ensures AsExternalModels(rows) == ms
    ensures forall i :: 0 <= i < |rows| ==> rows[i].genreId == genreId
  {
    forall i | 0 <= i < |rows|
      ensures AsExternalModels(rows)[i] == ms[i] && rows[i].genreId == genreId
    {
      assert Content(rows[i]) == AsEntities(ms, genreId)[i];
    }
  }

  /** A successful top-rated refresh leaves the table holding exactly the
      fetched movies, in the shuffled order, as top-rated rows: read back they
      are a permutation of the fetched list, and every genre partition is
      empty, since `deleteAndInsert` with no genre id deletes every row. */
  lemma RefreshTopRatedReplacesTable(db: Db, fetch: Fetch, shuffled: seq<Movie>)
    requires Valid(db)
    requires IsShuffleOf(shuffled, fetch)
    requires fetch.Fetched?
    ensures var db' := RefreshTopRated(db, fetch, shuffled).0;
      && Valid(db')
      && AsExternalModels(TopRatedMovies(db')) == shuffled
      && multiset(AsExternalModels(TopRatedMovies(db'))) == multiset(fetch.movies)
      && forall g :: GenreMovies(db', g) == []
  {
    var entities := AsEntities(shuffled, None);
    var db' := RefreshTopRated(db, fetch, shuffled).0;
    assert db' == DeleteAndInsert(db, None, entities);
    DeleteAndInsertAll(db, entities);
    StoredMovies(db'.rows, shuffled, None);
    FilterAll(InPartition(None), db'.rows);
    forall g
      ensures GenreMovies(db', g) == []
    {
      FilterNone(InPartition(Some(g)), db'.rows);
    }
    assert Valid(DeleteMovies(db));
  }

  /** A successful genre refresh leaves that genre's partition holding
      exactly the fetched movies in the shuffled order (a permutation of the
      fetched list), and every other partition, top-rated included, as it
      was. */
  lemma RefreshGenreReplacesPartition(db: Db, genre: MovieGenre, fetch: Fetch, shuffled: seq<Movie>)
    requires Valid(db)
    requires IsShuffleOf(shuffled, fetch)
    requires fetch.Fetched?
    ensures var db' := RefreshGenre(db, genre, fetch, shuffled).0;
      && Valid(db')
      && AsExternalModels(GenreMovies(db', genre.id)) == shuffled
      && multiset(AsExternalModels(GenreMovies(db', genre.id))) == multiset(fetch.movies)
      && forall k :: k != Some(genre.id) ==> Partition(db', k) == Partition(db, k)
  {
    var g := genre.id;
    var entities := AsEntities(shuffled, Some(g));
    var db' := RefreshGenre(db, genre, fetch, shuffled).0;
    assert db' == DeleteAndInsert(db, Some(g), entities);
    DeleteAndInsertGenre(db, g, entities);
    FilterAll(InPartition(Some(g)), entities);
    StoredMovies(GenreMovies(db', g), shuffled, Some(g));
    forall k | k != Some(g)
      ensures Partition(db', k) == Partition(db, k)
    {
      DeleteAndInsertGenreOnly(db, g, entities, k);
    }
    DeleteMoviesForGenreKeepsValid(db, g);
  }

  /* ---------------------------------------------------------------------
     `onRefresh()` runs the three refreshes concurrently; each write is one
     transaction, so the table sees them in some order. */

  /** A genre refresh whose write commits before the top-rated one is lost:
      the top-rated write deletes every row, genre rows included. */
  lemma GenreRefreshThenTopRated(db: Db, genre: MovieGenre, genreFetch: Fetch, genreShuffled: seq<Movie>,
                                 topFetch: Fetch, topShuffled: seq<Movie>)
    requires Valid(db)
    requires IsShuffleOf(genreShuffled, genreFetch) && IsShuffleOf(topShuffled, topFetch)
    requires genreFetch.Fetched? && topFetch.Fetched?
    ensures var db1 := RefreshGenre(db, genre, genreFetch, genreShuffled).0;
      var db2 := RefreshTopRated(db1, topFetch, topShuffled).0;
      GenreMovies(db2, genre.id) == [] && AsExternalModels(TopRatedMovies(db2)) == topShuffled
  {
    RefreshGenreReplacesPartition(db, genre, genreFetch, genreShuffled);
    RefreshTopRatedReplacesTable(RefreshGenre(db, genre, genreFetch, genreShuffled).0, topFetch, topShuffled);
  }

  /** In the other order both lists survive. */
  lemma TopRatedRefreshThenGenre(db: Db, genre: MovieGenre, genreFetch: Fetch, genreShuffled: seq<Movie>,
                                 topFetch: Fetch, topShuffled: seq<Movie>)
    requires Valid(db)
    requires IsShuffleOf(genreShuffled, genreFetch) && IsShuffleOf(topShuffled, topFetch)
    requires genreFetch.Fetched? && topFetch.Fetched?
    ensures var db1 := RefreshTopRated(db, topFetch, topShuffled).0;
      var db2 := RefreshGenre(db1, genre, genreFetch, genreShuffled).0;
      AsExternalModels(GenreMovies(db2, genre.id)) == genreShuffled &&
      AsExternalModels(TopRatedMovies(db2)) == topShuffled
  {
    var db1 := RefreshTopRated(db, topFetch, topShuffled).0;
    RefreshTopRatedReplacesTable(db, topFetch, topShuffled);
    RefreshGenreReplacesPartition(db1, genre, genreFetch, genreShuffled);
    var db2 := RefreshGenre(db1, genre, genreFetch, genreShuffled).0;
    assert Partition(db2, None) == Partition(db1, None);
  }

  /** Refreshing one genre leaves another genre, with a different id, as it
      was. */
  lemma GenreRefreshesIndependent(db: Db, genre: MovieGenre, other: MovieGenre, fetch: Fetch, shuffled: seq<Movie>)
    requires Valid(db)
    requires IsShuffleOf(shuffled, fetch)
    requires genre.id != other.id
    ensures GenreMovies(RefreshGenre(db, genre, fetch, shuffled).0, other.id) == GenreMovies(db, other.id)
  {
    if fetch.Fetched? {
      RefreshGenreReplacesPartition(db, genre, fetch, shuffled);
      var db' := RefreshGenre(db, genre, fetch, shuffled).0;
      assert Partition(db', Some(other.id)) == Partition(db, Some(other.id));
    }
  }

  /* ---------------------------------------------------------------------
     The streams. */

  /** One emission of the DAO's query flow as the repository's `onEach`
      sees it: the rows of the partition, and how the refresh would end if
      it were run now. */
  datatype DaoEmission = DaoEmission(rows: seq<MovieEntity>, refresh: RefreshOutcome)

  /** One collection of `getTopRatedMoviesStream()` or
      `getMoviesStream(genre)`: each DAO emission is mapped with
      `asExternalModel`; an empty list first runs the refresh inline, and
      goes downstream only if the refresh returns; a refresh that throws
      fails the collection with its exception. */
  function MoviesStream(emissions: seq<DaoEmission>): (a: Results.Attempt<seq<Movie>>)
    ensures |a.values| <= |emissions|
    ensures forall i :: 0 <= i < |a.values| ==> a.values[i] == AsExternalModels(emissions[i].rows)
    ensures forall i :: 0 <= i < |a.values| ==> emissions[i].rows != [] || emissions[i].refresh.Refreshed?
    ensures a.ending.Complete? ==> |a.values| == |emissions|
    ensures a.ending.Failed? ==>
      && |a.values| < |emissions|
      && emissions[|a.values|].rows == []
      && emissions[|a.values|].refresh == RefreshFailed(a.ending.cause)
  {
    if |emissions| == 0 then Results.Attempt([], Results.Complete)
    else
      var e := emissions[0];
      if e.rows == [] && e.refresh.RefreshFailed? then Results.Attempt([], Results.Failed(e.refresh.cause))
      else
        var rest := MoviesStream(emissions[1..]);
        Results.Attempt([AsExternalModels(e.rows)] + rest.values, rest.ending)
  }

  /** The collection fails exactly when some emission is an empty list whose
      refresh throws. */
  lemma {:induction false} MoviesStreamFailsIff(emissions: seq<DaoEmission>)
    ensures MoviesStream(emissions).ending.Failed? <==>
      exists i :: 0 <= i < |emissions| && emissions[i].rows == [] && emissions[i].refresh.RefreshFailed?
    decreases |emissions|
  {
    if |emissions| > 0 {
      MoviesStreamFailsIff(emissions[1..]);
      if !(emissions[0].rows == [] && emissions[0].refresh.RefreshFailed?) {
        if exists i :: 0 <= i < |emissions| && emissions[i].rows == [] && emissions[i].refresh.RefreshFailed? {
          var i :| 0 <= i < |emissions| && emissions[i].rows == [] && emissions[i].refresh.RefreshFailed?;
          assert emissions[1..][i - 1] == emissions[i];
        }
      }
    }
  }

  /** Two emissions agree where the stream can tell: the same rows, and,
      when the rows are empty, the same refresh outcome. */
  predicate SameWhereObserved(e1: DaoEmission, e2: DaoEmission)
  {
    e1.rows == e2.rows && (e1.rows == [] ==> e1.refresh == e2.refresh)
  }

  /** A non-empty list never runs a refresh: how a refresh would have ended
      at such an emission has no effect on the collection. */
  lemma {:induction false} CachedRowsSkipRefresh(emissions1: seq<DaoEmission>, emissions2: seq<DaoEmission>)
    requires |emissions1| == |emissions2|
    requires forall i :: 0 <= i < |emissions1| ==> SameWhereObserved(emissions1[i], emissions2[i])
    ensures MoviesStream(emissions1) == MoviesStream(emissions2)
    decreases |emissions1|
  {
    if |emissions1| > 0 {
      assert SameWhereObserved(emissions1[0], emissions2[0]);
      CachedRowsSkipRefresh(emissions1[1..], emissions2[1..]);
    }
  }

  /** The emission a DAO query makes for the current table. */
  function TopRatedEmission(db: Db, refresh: RefreshOutcome): DaoEmission
  {
    DaoEmission(TopRatedMovies(db), refresh)
  }

  function GenreEmission(db: Db, genre: MovieGenre, refresh: RefreshOutcome): DaoEmission
  {
    DaoEmission(GenreMovies(db, genre.id), refresh)
  }

  /** First launch, offline-first: the top-rated partition is empty, so the
      stream refreshes it; the refresh's write makes the query emit again,
      now with the stored movies, which are the fetched ones in shuffled
      order. */
  lemma FirstLaunchTopRated(db: Db, fetch: Fetch, shuffled: seq<Movie>)
    requires Valid(db)
    requires TopRatedMovies(db) == []
    requires IsShuffleOf(shuffled, fetch)
    requires fetch.Fetched?
    ensures var refreshed := RefreshTopRated(db, fetch, shuffled);
      MoviesStream([TopRatedEmission(db, refreshed.1), TopRatedEmission(refreshed.0, Refreshed)]) ==
        Results.Attempt([[], shuffled], Results.Complete)
  {
    var refreshed := RefreshTopRated(db, fetch, shuffled);
    RefreshTopRatedReplacesTable(db, fetch, shuffled);
    var es := [TopRatedEmission(db, refreshed.1), TopRatedEmission(refreshed.0, Refreshed)];
    assert es[1..] == [TopRatedEmission(refreshed.0, Refreshed)];
    assert es[1..][1..] == [];
  }

  /** First launch of a genre screen: the genre's partition is empty, so the
      stream refreshes it; the write makes the query emit again, with the
      fetched movies in shuffled order. Other partitions play no part. */
  lemma FirstLaunchGenre(db: Db, genre: MovieGenre, fetch: Fetch, shuffled: seq<Movie>)
    requires Valid(db)
    requires GenreMovies(db, genre.id) == []
    requires IsShuffleOf(shuffled, fetch)
    requires fetch.Fetched?
    ensures var refreshed := RefreshGenre(db, genre, fetch, shuffled);
      MoviesStream([GenreEmission(db, genre, refreshed.1), GenreEmission(refreshed.0, genre, Refreshed)]) ==
        Results.Attempt([[], shuffled], Results.Complete)
  {
    var refreshed := RefreshGenre(db, genre, fetch, shuffled);
    RefreshGenreReplacesPartition(db, genre, fetch, shuffled);
    var es := [GenreEmission(db, genre, refreshed.1), GenreEmission(refreshed.0, genre, Refreshed)];
    assert es[1..] == [GenreEmission(refreshed.0, genre, Refreshed)];
    assert es[1..][1..] == [];
  }
}
