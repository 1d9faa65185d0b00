# UiStatePlayground's UI-state pipeline, in Dafny

This project models the part of the UiStatePlayground Android app that turns
movie data into screen state. It covers:

- `Result` and `Flow.asResult()` (`Results`): every collection of a source
  starts with `Loading` and delivers its values as `Success`. A failure
  becomes `Error`. An `IOException` makes the source be collected again; any
  other exception ends the output.
- The movie models, the poster URL and the entity conversions (`Movies`).
- The Room `movie` table and its DAO (`MovieDao`). The table is its rows plus
  SQLite's AUTOINCREMENT counter. Partitions are selected by `genreId`.
  `deleteAndInsert` is one atomic step. Key-0 rows get fresh keys, and an
  insert whose key is taken is ignored with result -1.
- `upsert` (`Upsert`): insert all items, then update those whose insert
  returned -1.
- The offline-first repository (`Repository`). A refresh either fails and
  leaves the table as it was, or stores the fetched list in a shuffled order.
  A stream whose partition is empty runs the refresh inline, and a refresh
  that throws fails that collection.
- `HomeViewModel` (`Home`): combine-latest over three `Result` inputs and two
  flags, the `stateIn` initial value, and the `onRefresh`/`onErrorConsumed`
  flag sequence.
- `GenreViewModel` (`Genre`): the screen starts `Loading`, and each result
  overwrites its state.

`Prelude` holds Kotlin's `filter`/`map`/`count` and `Distinct`. `Distinct` is
what a collector of a `StateFlow` observes: an assignment equal to the current
value is not emitted.

Asynchronous behaviour is modelled as traces:

- The successive collections of a source flow are a list of `Attempt`s.
- The order in which values reach `combine` is a list of `HomeInput` events.
- The network result is a `Fetch` parameter, and the result of `shuffled()`
  is a parameter constrained to be a permutation of the fetched list.

All source paths below are under `app/src/main/java/com/example/uistateplayground/`.

## Model

| member | source | states |
|---|---|---|
| Results.AsResult | app/src/main/java/com/example/uistateplayground/core/Result.kt:19-36 | a subscription with at least one collection starts with `Loading`; every `Error` it emits carries a non-null exception |
| Results.Reached | app/src/main/java/com/example/uistateplayground/core/Result.kt:25-34 | the collections actually made: a prefix of those available, every one but the last failed with an `IOException`, and the last did not if more were available |
| Results.AsResultDeliversEveryValue | app/src/main/java/com/example/uistateplayground/core/Result.kt:21-23 | the `Success` payloads are exactly the values of the collections made, in order, none dropped or duplicated |
| Results.AsResultLoadingPerAttempt | app/src/main/java/com/example/uistateplayground/core/Result.kt:24-30 | `Loading` is emitted once per collection, so again on every retry (`onStart` is upstream of `retryWhen`) |
| Results.LoadingCountIsOnePlusRetries | app/src/main/java/com/example/uistateplayground/core/Result.kt:24-30 | with r retries the output holds exactly 1 + r `Loading`s |
| Results.AsResultErrorsCarryCauses | app/src/main/java/com/example/uistateplayground/core/Result.kt:25-35 | the exceptions of the `Error` emissions are exactly the failures' causes, in order; a collection that completes emits no `Error` |
| Results.AsResultAfterError | app/src/main/java/com/example/uistateplayground/core/Result.kt:25-35 | an `Error` that is not the last emission is an `IOException`, and the next emission is `Loading` |
| Results.OtherFailureEndsOutput | app/src/main/java/com/example/uistateplayground/core/Result.kt:31-35 | an `Error` carrying a non-IO exception is the last emission |
| Results.CompletedCollectionEndsWithSuccesses | app/src/main/java/com/example/uistateplayground/core/Result.kt:19-24 | when the last collection made completes, the output ends with its `Loading` and its `Success`es, with no `Error` of its own |
| Results.RetryWhenMatches | app/src/main/java/com/example/uistateplayground/core/Result.kt:25-34 | the `retryWhen` stage fails only with a non-IO cause, and then its output plus the `Error` that `catch` adds is `AsResult` |
| Results.AsResultChainMatches | app/src/main/java/com/example/uistateplayground/core/Result.kt:19-36 | the operator chain `map`, `onStart`, `retryWhen`, `catch` composed as written emits exactly `AsResult` and always completes normally |
| Results.RetryWhen | app/src/main/java/com/example/uistateplayground/core/Result.kt:25-30 | the first collection's emissions pass through first, and a failure it ends with is one the predicate declined to retry |
| Results.Catch | app/src/main/java/com/example/uistateplayground/core/Result.kt:31-35 | the result always completes normally; upstream emissions pass through; a failure is replaced by the handler's emissions |
| Results.AsResultChain | app/src/main/java/com/example/uistateplayground/core/Result.kt:19-36 | the chain as written always completes normally and, with at least one collection, emits `Loading` first; this row also covers the stages it composes: `SourceRun` (one collection of the source), `MapFlow` (`.map`), `OnStart` (`.onStart`), `Upstream` (their composition) and `RetryOnIO` (the `retryWhen` predicate) |
| Movies.PosterUrl | app/src/main/java/com/example/uistateplayground/data/model/Movie.kt:6-13 | the URL is the w342 image base followed by the poster path |
| Movies.PosterUrlRoundTrip | app/src/main/java/com/example/uistateplayground/data/model/Movie.kt:6-13 | the poster path can be recovered from the poster URL |
| Movies.PosterUrlInjective | app/src/main/java/com/example/uistateplayground/data/model/Movie.kt:6-13 | two movies have the same poster URL iff they have the same poster path |
| Movies.AsEntity | app/src/main/java/com/example/uistateplayground/data/model/Movie.kt:16-20 | the row has key 0 ("auto-generate"), the given genre, and the movie's title and poster path |
| Movies.AsExternalModel | app/src/main/java/com/example/uistateplayground/data/model/MovieEntity.kt:16-19 | the movie has the row's title and poster path |
| Movies.AsEntityRoundTrip | app/src/main/java/com/example/uistateplayground/data/model/Movie.kt:16-20 | a movie converted to a row of any genre and back is unchanged |
| Movies.AsExternalModelRoundTrip | app/src/main/java/com/example/uistateplayground/data/model/MovieEntity.kt:8-19 | a row converted to a movie and back with its genre is the row with key 0 |
| Movies.ExternalModelIgnoresKeyAndGenre | app/src/main/java/com/example/uistateplayground/data/model/MovieEntity.kt:16-19 | two rows give the same movie iff they agree on title and poster path |
| Movies.AsEntities | app/src/main/java/com/example/uistateplayground/data/repo/OfflineFirstMovieRepository.kt:48-50 | every row has key 0 and the given genre, and the rows read back as the original list |
| Movies.AsExternalModels | app/src/main/java/com/example/uistateplayground/data/repo/OfflineFirstMovieRepository.kt:17-18 | one movie per row, in order, with the row's title and poster path |
| MovieDao.NextKey | app/src/main/java/com/example/uistateplayground/data/model/MovieEntity.kt:9 | in a consistent table the AUTOINCREMENT key is not taken by any row |
| MovieDao.Partition | app/src/main/java/com/example/uistateplayground/data/source/MovieDao.kt:12-19 | every row returned has the partition's `genreId` and is in the table |
| MovieDao.PartitionComplete | app/src/main/java/com/example/uistateplayground/data/source/MovieDao.kt:12-19 | every row of the table with the partition's `genreId` is returned |
| MovieDao.TopRatedMovies | app/src/main/java/com/example/uistateplayground/data/source/MovieDao.kt:12-13 | only rows whose `genreId` is null |
| MovieDao.GenreMovies | app/src/main/java/com/example/uistateplayground/data/source/MovieDao.kt:18-19 | only rows of that genre; a null `genreId` never matches |
| MovieDao.DeleteMoviesForGenre | app/src/main/java/com/example/uistateplayground/data/source/MovieDao.kt:21-22 | the genre's partition becomes empty; every other partition, top-rated included, is unchanged; the counter is kept |
| MovieDao.DeleteMoviesForGenreKeepsValid | app/src/main/java/com/example/uistateplayground/data/source/MovieDao.kt:21-22 | deleting keeps keys distinct and not above the counter |
| MovieDao.DeleteMovies | app/src/main/java/com/example/uistateplayground/data/source/MovieDao.kt:24-25 | every row is deleted and the AUTOINCREMENT counter is kept |
| MovieDao.DeleteMoviesEmptiesEveryPartition | app/src/main/java/com/example/uistateplayground/data/source/MovieDao.kt:12-25 | after `deleteMovies()` the top-rated query and every genre query return nothing |
| MovieDao.InsertOne | app/src/main/java/com/example/uistateplayground/data/source/MovieDao.kt:30-31 | a key-0 row or one with a free key is appended, with its key as the result; a row whose key is taken leaves the table unchanged and yields -1; consistency is kept |
| MovieDao.InsertOrIgnoreMovies | app/src/main/java/com/example/uistateplayground/data/source/MovieDao.kt:27-31 | one result per row; existing rows are kept in place; consistency is kept |
| MovieDao.InsertOrIgnoreConcat | app/src/main/java/com/example/uistateplayground/data/source/MovieDao.kt:27-31 | inserting a batch equals inserting its first part and then the rest, with the result lists concatenated |
| MovieDao.InsertedRowsStored | app/src/main/java/com/example/uistateplayground/data/source/MovieDao.kt:27-31 | every row whose result is not -1 is in the table under the key reported |
| MovieDao.IgnoredOnlyOnConflict | app/src/main/java/com/example/uistateplayground/data/source/MovieDao.kt:27-31 | a -1 result (for a row whose own key is not -1) means that row's non-zero key was taken in the table that row met, rows inserted earlier in the batch included; that table is left as it was, and the key is still taken at the end |
| MovieDao.InsertConflictIgnored | app/src/main/java/com/example/uistateplayground/data/source/MovieDao.kt:27-31 | inserting a row whose key exists changes nothing and reports -1 |
| MovieDao.InsertAutoKeyed | app/src/main/java/com/example/uistateplayground/data/model/MovieEntity.kt:9 | key-0 rows are all appended, in order, with consecutive keys above the counter, and those keys are the results |
| MovieDao.PartitionAfterInsert | app/src/main/java/com/example/uistateplayground/data/source/MovieDao.kt:27-31 | after a key-0 insert a partition is its old rows followed by the inserted rows of that partition |
| MovieDao.DeleteAndInsert | app/src/main/java/com/example/uistateplayground/data/source/MovieDao.kt:33-41 | consistency is kept; with a genre id, the rows outside that genre survive first and in order |
| MovieDao.DeleteAndInsertGenre | app/src/main/java/com/example/uistateplayground/data/source/MovieDao.kt:33-41 | with a genre id, that partition ends up holding exactly the inserted rows of that genre |
| MovieDao.DeleteAndInsertGenreOthers | app/src/main/java/com/example/uistateplayground/data/source/MovieDao.kt:33-41 | with a genre id, every other partition keeps its rows and gains only inserted rows of its own |
| MovieDao.DeleteAndInsertGenreOnly | app/src/main/java/com/example/uistateplayground/data/source/MovieDao.kt:33-41 | when every inserted row has that genre, every other partition is unchanged |
| MovieDao.DeleteAndInsertAll | app/src/main/java/com/example/uistateplayground/data/source/MovieDao.kt:33-41 | with a null genre id the whole table becomes exactly the inserted rows, genre rows included |
| MovieDao.DeleteAndInsertStoresEveryRow | app/src/main/java/com/example/uistateplayground/data/source/MovieDao.kt:33-41 | no key-0 row is ignored: the table grows by exactly the inserted count after the delete |
| Upsert.IgnoredPositions | app/src/main/java/com/example/uistateplayground/data/UpsertHelper.kt:16-19 | exactly the positions below the bound whose insert result is -1, in increasing order |
| Upsert.UpdateList | app/src/main/java/com/example/uistateplayground/data/UpsertHelper.kt:16-19 | the update list is the items at those positions, in order, stopping at the shorter of items and results |
| Upsert.Upsert | app/src/main/java/com/example/uistateplayground/data/UpsertHelper.kt:9-21 | every item is inserted; an update is made iff some paired result is -1, and it holds exactly the ignored items |
| Repository.RefreshTopRated | app/src/main/java/com/example/uistateplayground/data/repo/OfflineFirstMovieRepository.kt:36-42 | a failed fetch rethrows its exception and leaves the table untouched; a successful one leaves as many rows as movies fetched |
| Repository.RefreshGenre | app/src/main/java/com/example/uistateplayground/data/repo/OfflineFirstMovieRepository.kt:44-52 | a failed fetch rethrows its exception and leaves the table untouched; otherwise the refresh completes |
| Repository.RefreshTopRatedReplacesTable | app/src/main/java/com/example/uistateplayground/data/repo/OfflineFirstMovieRepository.kt:36-42 | after a successful refresh the top-rated rows read back as the shuffled list, a permutation of the fetched one, and every genre partition is empty |
| Repository.RefreshGenreReplacesPartition | app/src/main/java/com/example/uistateplayground/data/repo/OfflineFirstMovieRepository.kt:44-52 | after a successful refresh the genre's rows read back as the shuffled list, a permutation of the fetched one, and every other partition is unchanged |
| Repository.GenreRefreshThenTopRated | app/src/main/java/com/example/uistateplayground/data/repo/OfflineFirstMovieRepository.kt:36-52 | if a genre refresh commits before the top-rated one, the genre's rows are gone afterwards |
| Repository.TopRatedRefreshThenGenre | app/src/main/java/com/example/uistateplayground/data/repo/OfflineFirstMovieRepository.kt:36-52 | in the other order, both lists survive as fetched |
| Repository.GenreRefreshesIndependent | app/src/main/java/com/example/uistateplayground/data/repo/OfflineFirstMovieRepository.kt:44-52 | refreshing one genre never changes a genre with a different id |
| Repository.MoviesStream | app/src/main/java/com/example/uistateplayground/data/repo/OfflineFirstMovieRepository.kt:16-34 | each emission is the DAO list converted to movies, an empty list only after its refresh returned; a failure happens at an empty list whose refresh threw, with that exception |
| Repository.MoviesStreamFailsIff | app/src/main/java/com/example/uistateplayground/data/repo/OfflineFirstMovieRepository.kt:19-23 | the collection fails iff some empty list's refresh throws |
| Repository.CachedRowsSkipRefresh | app/src/main/java/com/example/uistateplayground/data/repo/OfflineFirstMovieRepository.kt:29-33 | a non-empty list runs no refresh: the outcome a refresh would have had there does not affect the stream |
| Repository.FirstLaunchTopRated | app/src/main/java/com/example/uistateplayground/data/repo/OfflineFirstMovieRepository.kt:16-24 | on an empty table the stream emits the empty list after the refresh, then the stored shuffled list |
| Repository.FirstLaunchGenre | app/src/main/java/com/example/uistateplayground/data/repo/OfflineFirstMovieRepository.kt:26-34 | on an empty genre partition the stream emits the empty list after the refresh, then the stored shuffled list |
| Home.ToUiState | app/src/main/java/com/example/uistateplayground/ui/HomeViewModel.kt:68-84 | keeps the kind of result and a `Success`'s data |
| Home.ToUiStateForgetsOnlyCause | app/src/main/java/com/example/uistateplayground/ui/HomeViewModel.kt:68-84 | two results map to the same state iff they are equal or both `Error`s |
| Home.LastOf | app/src/main/java/com/example/uistateplayground/ui/HomeViewModel.kt:60-66 | absent iff the input never produced a value; otherwise the value of an event of that input after which it produced none |
| Home.LatestAfterIsLastOfEach | app/src/main/java/com/example/uistateplayground/ui/HomeViewModel.kt:60-66 | the slots `combine` overwrites on each arrival hold each input's last value |
| Home.LatestAfter | app/src/main/java/com/example/uistateplayground/ui/HomeViewModel.kt:60-66 | nothing is held before the first event, and the input of the latest event always has its slot filled |
| Home.Combine | app/src/main/java/com/example/uistateplayground/ui/HomeViewModel.kt:60-93 | the transform has a value iff every slot is filled; it copies both flags; each list is `Loading` iff its latest result is, `Success` iff its latest result is, with that result's data, and so `Error` iff its latest result is |
| Home.Combined | app/src/main/java/com/example/uistateplayground/ui/HomeViewModel.kt:60-93 | at most one emission per arrival; when the slots are ready the last emission is the transform of the current slots |
| Home.FilledIffEmitted | app/src/main/java/com/example/uistateplayground/ui/HomeViewModel.kt:60-66 | a slot is filled iff its input has produced a value |
| Home.CombineReadyIff | app/src/main/java/com/example/uistateplayground/ui/HomeViewModel.kt:60-93 | the transform has a value iff all five inputs have produced one |
| Home.EmittedGrows | app/src/main/java/com/example/uistateplayground/ui/HomeViewModel.kt:60-66 | once all five inputs have produced a value they stay so |
| Home.NothingCombinedUntilAllEmitted | app/src/main/java/com/example/uistateplayground/ui/HomeViewModel.kt:60-93 | `combine` emits nothing iff some input has produced no value |
| Home.InitialUntilAllEmitted | app/src/main/java/com/example/uistateplayground/ui/HomeViewModel.kt:94-104 | until then a collector sees only the initial state |
| Home.CurrentIsLatestOfEach | app/src/main/java/com/example/uistateplayground/ui/HomeViewModel.kt:60-93 | afterwards the screen state is the mapping of each input's last value |
| Home.OneInputOneField | app/src/main/java/com/example/uistateplayground/ui/HomeViewModel.kt:60-93 | afterwards each new value causes exactly one emission, which differs from the previous state only in that input's field |
| Home.UiStates | app/src/main/java/com/example/uistateplayground/ui/HomeViewModel.kt:94-104 | the state starts at the initial value and changes once per combined value |
| Home.Observed | app/src/main/java/com/example/uistateplayground/ui/HomeViewModel.kt:94-104 | a collector first sees the initial state: three `Loading`s, not refreshing, no error |
| Home.Current | app/src/main/java/com/example/uistateplayground/ui/HomeViewModel.kt:60-104 | the state is the initial value until every input has produced one, and the transform of the current slots after |
| Home.OnRefresh | app/src/main/java/com/example/uistateplayground/ui/HomeViewModel.kt:106-124 | the spinner is raised first and never raised again; it is lowered, and the last event does not raise it; the error flag is raised iff a refresh failed |
| Home.OnRefreshEffect | app/src/main/java/com/example/uistateplayground/ui/HomeViewModel.kt:106-124 | the state goes refreshing, then not refreshing, then (on failure) error; the lists are untouched; afterwards not refreshing and error iff it was or a refresh failed |
| Home.OnErrorConsumed | app/src/main/java/com/example/uistateplayground/ui/HomeViewModel.kt:126-130 | the error flag is always cleared, and nothing else is set |
| Home.OnErrorConsumedEffect | app/src/main/java/com/example/uistateplayground/ui/HomeViewModel.kt:126-130 | the state changes once, to the previous one with no error |
| Home.FirstValuesCombineToInitial | app/src/main/java/com/example/uistateplayground/ui/HomeViewModel.kt:94-104 | when each input has produced its first value (three `Loading`s, flags false), the first combined state equals the initial one |
| Home.TopRatedArrives | app/src/main/java/com/example/uistateplayground/ui/HomeViewModel.kt:60-104 | a collector sees the loading screen once, then, when the top-rated list arrives, a state differing only in that list |
| Genre.ToGenreUiState | app/src/main/java/com/example/uistateplayground/ui/GenreViewModel.kt:38-42 | keeps the kind of result and a `Success`'s movies |
| Genre.GenreStates | app/src/main/java/com/example/uistateplayground/ui/GenreViewModel.kt:31-45 | the state starts `Loading` and is assigned once per result |
| Genre.StateAfter | app/src/main/java/com/example/uistateplayground/ui/GenreViewModel.kt:37-45 | the folded state is `Loading` before any result and the mapping of the last result after |
| Genre.Observed | app/src/main/java/com/example/uistateplayground/ui/GenreViewModel.kt:31-45 | a collector first sees `Loading` and last sees the folded state |
| Genre.StateIsLastResult | app/src/main/java/com/example/uistateplayground/ui/GenreViewModel.kt:37-45 | the state is the mapping of the last result, or `Loading` before any |
| Genre.EarlierResultsForgotten | app/src/main/java/com/example/uistateplayground/ui/GenreViewModel.kt:37-45 | collections ending on the same result leave the same state |
| Genre.ErrorThenLoading | app/src/main/java/com/example/uistateplayground/ui/GenreViewModel.kt:34-45 | an error state that is not the last is followed by `Loading` |
| Genre.CachedGenreShown | app/src/main/java/com/example/uistateplayground/ui/GenreViewModel.kt:34-45 | cached rows are shown right after `Loading`, without a refresh |
| Genre.OfflineThenRetried | app/src/main/java/com/example/uistateplayground/ui/GenreViewModel.kt:34-45 | an empty cache whose refresh throws an `IOException` shows `Loading`, `Error`, `Loading`, then the rows found on the retry |
| Genre.NonRetriedFailureStays | app/src/main/java/com/example/uistateplayground/ui/GenreViewModel.kt:34-45 | a refresh that throws any other exception shows `Loading`, then `Error`, and nothing after |

## Where the code and its description differ

The model follows the code in each case:

- The refresh of an empty partition runs inline in `onEach`. It is not
  launched separately. So a refresh that throws fails the movie stream, and
  `asResult` turns that into `Error`, with a retry for an `IOException`. The
  refresh runs on every empty emission, not only the first.
- `GenreViewModel` starts at `GenreScreenUiState(Loading)` before
  `fetchMovies` is called. It does not start absent.
- `refreshTopRated` calls `deleteAndInsert` without a genre id, so it deletes
  every row, the genre rows included. `Repository.GenreRefreshThenTopRated`
  states the consequence for `onRefresh`'s concurrent refreshes.

## Left out

- Compose UI, navigation, dependency injection, Retrofit/Moshi and the API
  itself. A fetch is a parameter: the list, or the exception it throws.
- The older `data/` package (`data/MovieDao.kt`, `data/MovieRepositoryImpl.kt`, …).
  It is not used by the screens modelled here.
- The definition of `MovieGenre` is not part of this model. Its two values
  carry an opaque `id` string. Where two genres must not share rows, the
  lemmas require their ids to differ.
- Timing: the 15-second delay before a retry, `WhileUiSubscribed`, and
  `stateIn`'s start/stop policy.
- Randomness: `shuffled()` is a parameter, and the model only requires it to
  be a permutation of the fetched list.
- Concurrency and cancellation:
  - `onRefresh` is modelled by the three refresh outcomes it awaits, and the
    table effects of its refreshes are modelled one transaction at a time in
    either order.
  - Not modelled: the cancellation of sibling refreshes after one fails; the
    fact that the `async`s start before `isRefreshing` is set; a `StateFlow`
    collector too slow to see a short-lived value; and `fetchMovies` leaving
    earlier collections running.
- Home.Combined: inputs reach `combine` one value at a time, and each arrival
  is one transform. kotlinx `combine` can take several pending values from
  different inputs before it runs the transform once, so it may emit fewer
  states. That batching is not modelled. The same holds for
  Home.OneInputOneField and Home.OnRefreshEffect, whose traces assume one
  emission per value.
- Home.OnErrorConsumed and Home.OnRefresh: `isError` and `isRefreshing` are
  `MutableStateFlow`s, so an assignment of the value a flag already holds
  reaches `combine` as no event. Examples are consuming an error when there
  is none, and a second failed refresh before the first error is consumed.
  The model always produces the flag event. `UiStates` then has a repeated
  entry that the program never produces, and Home.OneInputOneField,
  Home.OnRefreshEffect and Home.OnErrorConsumedEffect count that entry.
  `Observed` merges equal neighbours, so what a collector sees is unaffected.
- A failed database write: a refresh fails only when its fetch fails.
- Results.AsResult: `Complete` also stands for the end of a finite
  observation of a source (Room flows never complete).
- MovieDao.Partition: rows come back in storage order, while SQL leaves the
  order of an unordered `SELECT` unspecified.
- MovieDao.InsertOne: Kotlin's `Int` key and the 64-bit rowid are unbounded
  here, so AUTOINCREMENT overflow (SQLITE_FULL) is not modelled.
- MovieDao.IgnoredOnlyOnConflict: a row whose own key is -1 is excluded,
  since its result cannot be told apart from "ignored".
- MovieDao.DeleteAndInsertGenre: this and the other `DeleteAndInsert` lemmas
  are stated for key-0 rows, the only rows the repository inserts.
- Upsert.UpdateList: items are taken to be non-null. `mapNotNull` would also drop a
  null item whose result is -1, but the one caller passes non-null entities.
- Upsert.Upsert: `updateMany` is modelled by the list it would receive, not
  run. `insertMany` is a function of its argument.
