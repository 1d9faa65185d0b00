/** `ui/GenreViewModel.kt`: the genre screen's state. It starts `Loading`;
    `fetchMovies(genre)` collects the genre's movie stream through
    `asResult()` and assigns the screen state on every result. */
module Genre {
  import opened Prelude
  import opened Movies
  import Results
  import Repository

  datatype GenreUiState = Success(movies: seq<Movie>) | Error | Loading

  datatype GenreScreenUiState = GenreScreenUiState(genreState: GenreUiState)

  /** The state's value before any result arrives. */
  const InitialGenreScreenUiState := GenreScreenUiState(Loading)

  function ToGenreUiState(r: Results.Result<seq<Movie>>): (g: GenreUiState)
    ensures g.Success? <==> r.Success?
    ensures g.Loading? <==> r.Loading?
    ensures r.Success? ==> g.movies == r.data
  {
    match r
    case Success(data) => Success(data)
    case Loading => Loading
    case Error(_) => Error
  }

  function ToScreen(r: Results.Result<seq<Movie>>): GenreScreenUiState
  {
    GenreScreenUiState(ToGenreUiState(r))
  }

  /** The values `uiState` holds in turn while the collection runs. */
  function GenreStates(results: seq<Results.Result<seq<Movie>>>): (r: seq<GenreScreenUiState>)
    ensures |r| == |results| + 1 && r[0] == InitialGenreScreenUiState
  {
    [InitialGenreScreenUiState] + Map(ToScreen, results)
  }

  /** What a collector of `uiState` observes. */
  function Observed(results: seq<Results.Result<seq<Movie>>>): (r: seq<GenreScreenUiState>)
    ensures |r| > 0 && r[0] == InitialGenreScreenUiState
    ensures r[|r| - 1] == StateAfter(results)
  {
    StateIsLastResult(results);
    Distinct(GenreStates(results))
  }

  /** The value `uiState` holds after the results, as the collection's fold
      computes it: each result overwrites the state. */
  function StateAfter(results: seq<Results.Result<seq<Movie>>>): (r: GenreScreenUiState)
    ensures |results| == 0 ==> r == InitialGenreScreenUiState
    ensures |results| > 0 ==> r == ToScreen(results[|results| - 1])
    decreases |results|
  {
    if |results| == 0 then InitialGenreScreenUiState
    else StateAfter(results[..|results| - 1]).(genreState := ToGenreUiState(results[|results| - 1]))
  }

  /** The state is set by the last result alone: earlier results leave no
      trace, and with no result yet the screen is loading. */
  lemma {:induction false} StateIsLastResult(results: seq<Results.Result<seq<Movie>>>)
    ensures StateAfter(results) ==
      if |results| == 0 then InitialGenreScreenUiState else ToScreen(results[|results| - 1])
    ensures StateAfter(results) == GenreStates(results)[|results|]
  {
    if |results| > 0 {
      StateIsLastResult(results[..|results| - 1]);
    }
  }

  /** Two collections that end on the same result leave the same state. */
  lemma EarlierResultsForgotten(a: seq<Results.Result<seq<Movie>>>, b: seq<Results.Result<seq<Movie>>>,
                                r: Results.Result<seq<Movie>>)
    ensures StateAfter(a + [r]) == StateAfter(b + [r])
  {
    StateIsLastResult(a + [r]);
    StateIsLastResult(b + [r]);
  }

  /** The screen shows an error only transiently after an `IOException`: the
      next state is `Loading` again, as `asResult` retries; after any other
      exception the error stays. */
  lemma ErrorThenLoading(attempts: seq<Results.Attempt<seq<Movie>>>)
    ensures var states := GenreStates(Results.AsResult(attempts));
      forall i :: 1 <= i < |states| - 1 && states[i].genreState.Error? ==> states[i + 1].genreState.Loading?
  {
    var results := Results.AsResult(attempts);
    Results.AsResultAfterError(attempts);
    var states := GenreStates(results);
    forall i | 1 <= i < |states| - 1 && states[i].genreState.Error?
      ensures states[i + 1].genreState.Loading?
    {
      assert states[i] == ToScreen(results[i - 1]);
      assert states[i + 1] == ToScreen(results[i]);
    }
  }

  /* ---------------------------------------------------------------------
     End to end: the table, the repository's stream, `asResult`, the
     screen. */

  /** Cached rows are shown without a refresh: the screen goes from
      `Loading` straight to the stored movies. */
  lemma CachedGenreShown(rows: seq<MovieEntity>, refresh: Repository.RefreshOutcome)
    requires rows != []
    ensures var stream := Repository.MoviesStream([Repository.DaoEmission(rows, refresh)]);
      Observed(Results.AsResult([stream])) ==
        [InitialGenreScreenUiState, GenreScreenUiState(Success(AsExternalModels(rows)))]
  {
    var emissions := [Repository.DaoEmission(rows, refresh)];
    var stream := Repository.MoviesStream(emissions);
    assert emissions[1..] == [];
    var movies := AsExternalModels(rows);
    assert stream == Results.Attempt([movies], Results.Complete);
    Results.AsResultUnfold([stream]);
    var loading: seq<Results.Result<seq<Movie>>> := [Results.Loading];
    assert Results.AsResult([stream]) == loading + [Results.Success(movies)];
    var states := GenreStates(loading + [Results.Success(movies)]);
    var shown := GenreScreenUiState(Success(movies));
    assert states == [InitialGenreScreenUiState, InitialGenreScreenUiState] + [shown];
    DistinctSnoc([InitialGenreScreenUiState], InitialGenreScreenUiState);
    assert [InitialGenreScreenUiState] + [InitialGenreScreenUiState] == [InitialGenreScreenUiState, InitialGenreScreenUiState];
    DistinctSnoc([InitialGenreScreenUiState, InitialGenreScreenUiState], shown);
  }

  /** Offline on first launch: the partition is empty and the refresh
      throws an `IOException`, so the screen shows the error; the retry finds
      the rows another refresh stored and shows them. */
  lemma OfflineThenRetried(message: string, rows: seq<MovieEntity>, refresh: Repository.RefreshOutcome)
    requires rows != []
    ensures var first := Repository.MoviesStream(
        [Repository.DaoEmission([], Repository.RefreshFailed(Results.IOException(message)))]);
      var second := Repository.MoviesStream([Repository.DaoEmission(rows, refresh)]);
      GenreStates(Results.AsResult([first, second])) ==
        [InitialGenreScreenUiState, GenreScreenUiState(Loading), GenreScreenUiState(Error),
         GenreScreenUiState(Loading), GenreScreenUiState(Success(AsExternalModels(rows)))]
  {
    var c := Results.IOException(message);
    var e1 := [Repository.DaoEmission([], Repository.RefreshFailed(c))];
    var e2 := [Repository.DaoEmission(rows, refresh)];
    var first := Repository.MoviesStream(e1);
    var second := Repository.MoviesStream(e2);
    assert first == Results.Attempt([], Results.Failed(c));
    assert e2[1..] == [];
    var movies := AsExternalModels(rows);
    assert second == Results.Attempt([movies], Results.Complete);
    var attempts := [first, second];
    Results.AsResultUnfold(attempts);
    assert attempts[1..] == [second];
    Results.AsResultUnfold([second]);
    var loading: seq<Results.Result<seq<Movie>>> := [Results.Loading];
    var error: seq<Results.Result<seq<Movie>>> := [Results.Error(Some(c))];
    assert Results.Opening(first) == loading;
    assert Results.AsResult([second]) == loading + [Results.Success(movies)];
    assert Results.AsResult(attempts) == loading + error + (loading + [Results.Success(movies)]);
  }

  /** A refresh failing with any other exception ends the collection: the
      screen shows the error and keeps it. */
  lemma NonRetriedFailureStays(message: string, later: seq<Results.Attempt<seq<Movie>>>)
    ensures var first := Repository.MoviesStream(
        [Repository.DaoEmission([], Repository.RefreshFailed(Results.OtherException(message)))]);
      GenreStates(Results.AsResult([first] + later)) ==
        [InitialGenreScreenUiState, GenreScreenUiState(Loading), GenreScreenUiState(Error)]
  {
    var c := Results.OtherException(message);
    var first := Repository.MoviesStream([Repository.DaoEmission([], Repository.RefreshFailed(c))]);
    assert first == Results.Attempt([], Results.Failed(c));
    Results.AsResultUnfold([first] + later);
    var loading: seq<Results.Result<seq<Movie>>> := [Results.Loading];
    assert Results.Opening(first) == loading;
    assert Results.AsResult([first] + later) == loading + [Results.Error(Some(c))];
  }
}
