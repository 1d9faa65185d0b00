/** `ui/HomeViewModel.kt`: the home screen's state. Five inputs are combined
    with "latest value of each" semantics: the three movie lists as
    `Result`s and the two flags `isRefreshing` and `isError`. Nothing is
    combined until each input has produced a value; before that the screen
    shows the `stateIn` initial value.

    The inputs reach `combine` in some interleaving, which is a parameter
    here: a sequence of `HomeInput` events. */
module Home {
  import opened Prelude
  import opened Movies
  import Results
  import Repository

  /** The per-list screen state: a `Result` without the exception. */
  datatype UiState<+T> = Success(data: T) | Error | Loading

  function ToUiState<T>(r: Results.Result<T>): (u: UiState<T>)
    ensures u.Success? <==> r.Success?
    ensures u.Loading? <==> r.Loading?
    ensures r.Success? ==> u.data == r.data
  {
    match r
    case Success(data) => Success(data)
    case Loading => Loading
    case Error(_) => Error
  }

  /** The mapping forgets exactly the exception an error carries. */
  lemma ToUiStateForgetsOnlyCause<T>(r1: Results.Result<T>, r2: Results.Result<T>)
    ensures ToUiState(r1) == ToUiState(r2) <==> r1 == r2 || (r1.Error? && r2.Error?)
  {
  }

  datatype HomeUiState = HomeUiState(
    topRatedMovies: UiState<seq<Movie>>,
    actionMovies: UiState<seq<Movie>>,
    animationMovies: UiState<seq<Movie>>,
    isRefreshing: bool,
    isError: bool)

  /** The `stateIn` initial value. */
  const InitialHomeUiState := HomeUiState(Loading, Loading, Loading, false, false)

  /** A value arriving at `combine` from one of its five inputs. */
  datatype HomeInput =
    | TopRated(result: Results.Result<seq<Movie>>)
    | ActionMovies(result: Results.Result<seq<Movie>>)
    | AnimationMovies(result: Results.Result<seq<Movie>>)
    | Refreshing(refreshing: bool)
    | ErrorOccurred(errorOccurred: bool)

  datatype Source = TopRatedSource | ActionSource | AnimationSource | RefreshingSource | ErrorSource

  function SourceOf(e: HomeInput): Source
  {
    match e
    case TopRated(_) => TopRatedSource
    case ActionMovies(_) => ActionSource
    case AnimationMovies(_) => AnimationSource
    case Refreshing(_) => RefreshingSource
    case ErrorOccurred(_) => ErrorSource
  }

  /* ---------------------------------------------------------------------
     The reference meaning of "latest value": the last event of a source. */

  /** The payload of the last event `pick` accepts, if any. */
  function LastOf<T(==)>(events: seq<HomeInput>, pick: HomeInput -> Option<T>): (v: Option<T>)
    ensures v.None? <==> forall i :: 0 <= i < |events| ==> pick(events[i]).None?
    ensures v.Some? ==>
      exists i :: 0 <= i < |events| && pick(events[i]) == v &&
        (forall j :: i < j < |events| ==> pick(events[j]).None?)
  {
    if |events| == 0 then None
    else
      var n := |events| - 1;
      if pick(events[n]).Some? then pick(events[n])
      else
        var v := LastOf(events[..n], pick);
        assert forall i :: 0 <= i < n ==> events[..n][i] == events[i];
        v
  }

  function PickTopRated(e: HomeInput): Option<Results.Result<seq<Movie>>>
  {
    if e.TopRated? then Some(e.result) else None
  }

  function PickAction(e: HomeInput): Option<Results.Result<seq<Movie>>>
  {
    if e.ActionMovies? then Some(e.result) else None
  }

  function PickAnimation(e: HomeInput): Option<Results.Result<seq<Movie>>>
  {
    if e.AnimationMovies? then Some(e.result) else None
  }

  function PickRefreshing(e: HomeInput): Option<bool>
  {
    if e.Refreshing? then Some(e.refreshing) else None
  }

  function PickError(e: HomeInput): Option<bool>
  {
    if e.ErrorOccurred? then Some(e.errorOccurred) else None
  }

  predicate Emitted(events: seq<HomeInput>, s: Source)
  {
    exists i :: 0 <= i < |events| && SourceOf(events[i]) == s
  }

  /** Every one of the five inputs has produced a value. */
  predicate AllEmitted(events: seq<HomeInput>)
  {
    && Emitted(events, TopRatedSource)
    && Emitted(events, ActionSource)
    && Emitted(events, AnimationSource)
    && Emitted(events, RefreshingSource)
    && Emitted(events, ErrorSource)
  }

  /* ---------------------------------------------------------------------
     `combine` as it runs: a slot per input, overwritten on each arrival. */

  datatype Latest = Latest(
    topRated: Option<Results.Result<seq<Movie>>>,
    action: Option<Results.Result<seq<Movie>>>,
    animation: Option<Results.Result<seq<Movie>>>,
    refreshing: Option<bool>,
    error: Option<bool>)

  const NothingYet := Latest(None, None, None, None, None)

  function Record(l: Latest, e: HomeInput): Latest
  {
    match e
    case TopRated(r) => l.(topRated := Some(r))
    case ActionMovies(r) => l.(action := Some(r))
    case AnimationMovies(r) => l.(animation := Some(r))
    case Refreshing(b) => l.(refreshing := Some(b))
    case ErrorOccurred(b) => l.(error := Some(b))
  }

  /** The slots after the events arrived in order. */
  function LatestAfter(events: seq<HomeInput>): (l: Latest)
    ensures l == NothingYet <==> |events| == 0
    ensures |events| > 0 ==> Filled(l, SourceOf(events[|events| - 1]))
  {
    if |events| == 0 then NothingYet
    else Record(LatestAfter(events[..|events| - 1]), events[|events| - 1])
  }

  /** The transform: each `Result` mapped to a `UiState`, the flags copied;
      nothing until every slot is filled. */
  function Combine(l: Latest): (c: Option<HomeUiState>)
    ensures c.Some? <==> forall s :: Filled(l, s)
    ensures c.Some? ==> l.refreshing == Some(c.value.isRefreshing) && l.error == Some(c.value.isError)
    ensures c.Some? ==>
      && l.topRated.Some? && (c.value.topRatedMovies.Success? <==> l.topRated.value.Success?)
      && l.action.Some? && (c.value.actionMovies.Success? <==> l.action.value.Success?)
      && l.animation.Some? && (c.value.animationMovies.Success? <==> l.animation.value.Success?)
    ensures c.Some? ==>
      && (c.value.topRatedMovies.Loading? <==> l.topRated.value.Loading?)
      && (c.value.actionMovies.Loading? <==> l.action.value.Loading?)
      && (c.value.animationMovies.Loading? <==> l.animation.value.Loading?)
    ensures c.Some? ==>
      && (c.value.topRatedMovies.Success? ==> c.value.topRatedMovies.data == l.topRated.value.data)
      && (c.value.actionMovies.Success? ==> c.value.actionMovies.data == l.action.value.data)
      && (c.value.animationMovies.Success? ==> c.value.animationMovies.data == l.animation.value.data)
  {
    if l.topRated.Some? && l.action.Some? && l.animation.Some? && l.refreshing.Some? && l.error.Some?
    then Some(HomeUiState(
      ToUiState(l.topRated.value), ToUiState(l.action.value), ToUiState(l.animation.value),
      l.refreshing.value, l.error.value))
    else
      assert !Filled(l, TopRatedSource) || !Filled(l, ActionSource) || !Filled(l, AnimationSource)
        || !Filled(l, RefreshingSource) || !Filled(l, ErrorSource);
      None
  }

  /** What `combine` emits: after each arrival, the transform of the slots,
      when it has a value. */
  function Combined(events: seq<HomeInput>): (r: seq<HomeUiState>)
    ensures |r| <= |events|
    ensures |events| > 0 && Combine(LatestAfter(events)).Some? ==>
      r != [] && r[|r| - 1] == Combine(LatestAfter(events)).value
  {
    if |events| == 0 then []
    else
      var c := Combine(LatestAfter(events));
      Combined(events[..|events| - 1]) + (if c.Some? then [c.value] else [])
  }

  /** The values `uiState` holds in turn: the initial value, then each value
      `combine` emits. */
  function UiStates(events: seq<HomeInput>): (r: seq<HomeUiState>)
    ensures |r| == 1 + |Combined(events)|
    ensures r[0] == InitialHomeUiState
  {
    [InitialHomeUiState] + Combined(events)
  }

  /** What a collector of `uiState` observes: a `StateFlow` does not
      re-emit a value equal to the one it holds. */
  function Observed(events: seq<HomeInput>): (r: seq<HomeUiState>)
    ensures |r| > 0 && r[0] == InitialHomeUiState
  {
    Distinct(UiStates(events))
  }

  /** The value `uiState` holds after the events. */
  function Current(events: seq<HomeInput>): (s: HomeUiState)
    ensures !AllEmitted(events) ==> s == InitialHomeUiState
    ensures AllEmitted(events) ==> Combine(LatestAfter(events)) == Some(s)
  {
    var r := UiStates(events);
    NothingCombinedUntilAllEmitted(events);
    CombineReadyIff(events);
    r[|r| - 1]
  }

  /** The screen state after one input's new value: only that input's field
      changes. */
  function Apply(s: HomeUiState, e: HomeInput): HomeUiState
  {
    match e
    case TopRated(r) => s.(topRatedMovies := ToUiState(r))
    case ActionMovies(r) => s.(actionMovies := ToUiState(r))
    case AnimationMovies(r) => s.(animationMovies := ToUiState(r))
    case Refreshing(b) => s.(isRefreshing := b)
    case ErrorOccurred(b) => s.(isError := b)
  }

  /* ---------------------------------------------------------------------
     Combine-latest. */

  /** Each slot holds the last value its input produced. */
  lemma {:induction false} LatestAfterIsLastOfEach(events: seq<HomeInput>)
    ensures LatestAfter(events) == Latest(
      LastOf(events, PickTopRated), LastOf(events, PickAction), LastOf(events, PickAnimation),
      LastOf(events, PickRefreshing), LastOf(events, PickError))
    decreases |events|
  {
    if |events| > 0 {
      LatestAfterIsLastOfEach(events[..|events| - 1]);
    }
  }

  /** Whether the slot of a source has been filled. */
  predicate Filled(l: Latest, s: Source)
  {
    match s
    case TopRatedSource => l.topRated.Some?
    case ActionSource => l.action.Some?
    case AnimationSource => l.animation.Some?
    case RefreshingSource => l.refreshing.Some?
    case ErrorSource => l.error.Some?
  }

  lemma LatestAfterSnoc(events: seq<HomeInput>, e: HomeInput)
    ensures LatestAfter(events + [e]) == Record(LatestAfter(events), e)
  {
    assert (events + [e])[..|events|] == events;
  }

  /** A slot is filled exactly when its input has produced a value. */
  lemma {:induction false} FilledIffEmitted(events: seq<HomeInput>, s: Source)
    ensures Filled(LatestAfter(events), s) <==> Emitted(events, s)
    decreases |events|
  {
    if |events| > 0 {
      var n := |events| - 1;
      var prefix := events[..n];
      FilledIffEmitted(prefix, s);
      if Emitted(events, s) && SourceOf(events[n]) != s {
        var i :| 0 <= i < |events| && SourceOf(events[i]) == s;
        assert prefix[i] == events[i];
      }
      if Emitted(prefix, s) {
        var i :| 0 <= i < |prefix| && SourceOf(prefix[i]) == s;
        assert prefix[i] == events[i];
      }
    }
  }

  /** `combine` has a value exactly when every input has produced one. */
  lemma CombineReadyIff(events: seq<HomeInput>)
    ensures Combine(LatestAfter(events)).Some? <==> AllEmitted(events)
  {
    FilledIffEmitted(events, TopRatedSource);
    FilledIffEmitted(events, ActionSource);
    FilledIffEmitted(events, AnimationSource);
    FilledIffEmitted(events, RefreshingSource);
    FilledIffEmitted(events, ErrorSource);
  }

  /** An input that has produced a value stays so. */
  lemma EmittedGrows(events: seq<HomeInput>, e: HomeInput)
    ensures AllEmitted(events) ==> AllEmitted(events + [e])
  {
    if AllEmitted(events) {
      forall s | Emitted(events, s)
        ensures Emitted(events + [e], s)
      {
        var i :| 0 <= i < |events| && SourceOf(events[i]) == s;
        assert (events + [e])[i] == events[i];
      }
    }
  }

  /** `combine` emits nothing, and the screen keeps the initial value, until
      each of the five inputs has produced a value. */
  lemma {:induction false} NothingCombinedUntilAllEmitted(events: seq<HomeInput>)
    ensures Combined(events) == [] <==> !AllEmitted(events)
    decreases |events|
  {
    if |events| > 0 {
      var n := |events| - 1;
      var prefix := events[..n];
      assert prefix + [events[n]] == events;
      NothingCombinedUntilAllEmitted(prefix);
      CombineReadyIff(events);
      EmittedGrows(prefix, events[n]);
    }
  }

  lemma InitialUntilAllEmitted(events: seq<HomeInput>)
    requires !AllEmitted(events)
    ensures Observed(events) == [InitialHomeUiState]
  {
    NothingCombinedUntilAllEmitted(events);
    assert UiStates(events) == [InitialHomeUiState];
  }

  /** Once every input has produced a value, the screen state is the
      transform of the last value of each. */
  lemma CurrentIsLatestOfEach(events: seq<HomeInput>)
    requires AllEmitted(events)
    ensures var top := LastOf(events, PickTopRated);
      var action := LastOf(events, PickAction);
      var animation := LastOf(events, PickAnimation);
      var refreshing := LastOf(events, PickRefreshing);
      var error := LastOf(events, PickError);
      && top.Some? && action.Some? && animation.Some? && refreshing.Some? && error.Some?
      && Current(events) == HomeUiState(
        ToUiState(top.value), ToUiState(action.value), ToUiState(animation.value),
        refreshing.value, error.value)
  {
    LatestAfterIsLastOfEach(events);
  }

  /** After every input has produced a value, each new value makes
      `combine` emit once, and the new screen state differs from the
      previous one only in that input's field. */
  lemma OneInputOneField(events: seq<HomeInput>, e: HomeInput)
    requires AllEmitted(events)
    ensures AllEmitted(events + [e])
    ensures UiStates(events + [e]) == UiStates(events) + [Apply(Current(events), e)]
    ensures Current(events + [e]) == Apply(Current(events), e)
  {
    var events' := events + [e];
    assert events'[..|events'| - 1] == events;
    EmittedGrows(events, e);
    CombineReadyIff(events);
    CombineReadyIff(events');
    assert |events| > 0;
    assert Current(events) == Combine(LatestAfter(events)).value;
    assert UiStates(events') == UiStates(events) + [Combine(LatestAfter(events')).value];
  }

  /* ---------------------------------------------------------------------
     The two flags. */

  /** How the three refreshes `onRefresh` awaits end. */
  datatype RefreshOutcomes = RefreshOutcomes(
    topRated: Repository.RefreshOutcome,
    action: Repository.RefreshOutcome,
    animation: Repository.RefreshOutcome)

  predicate AnyFailed(o: RefreshOutcomes)
  {
    o.topRated.RefreshFailed? || o.action.RefreshFailed? || o.animation.RefreshFailed?
  }

  /** `onRefresh()`: `isRefreshing` is set, the three refreshes are
      awaited, `isRefreshing` is cleared in `finally`, and a failure reaches
      the exception handler, which sets `isError`. */
  function OnRefresh(o: RefreshOutcomes): (events: seq<HomeInput>)
    ensures |events| >= 2 && events[0] == Refreshing(true) && events[|events| - 1] != Refreshing(true)
    ensures Refreshing(false) in events
    ensures forall i :: 0 < i < |events| ==> events[i] != Refreshing(true)
    ensures ErrorOccurred(true) in events <==> AnyFailed(o)
  {
    [Refreshing(true), Refreshing(false)] + (if AnyFailed(o) then [ErrorOccurred(true)] else [])
  }

  /** `onErrorConsumed()`. */
  function OnErrorConsumed(): (events: seq<HomeInput>)
    ensures ErrorOccurred(false) in events
    ensures forall i :: 0 <= i < |events| ==> events[i].ErrorOccurred? && !events[i].errorOccurred
  {
    [ErrorOccurred(false)]
  }

  /** A refresh shows the spinner, then hides it; the error flag is raised
      exactly when a refresh failed, and the movie lists are untouched (new
      lists arrive through the table, as separate inputs). */
  lemma OnRefreshEffect(events: seq<HomeInput>, o: RefreshOutcomes)
    requires AllEmitted(events)
    ensures var s := Current(events);
      UiStates(events + OnRefresh(o)) ==
        UiStates(events) + [s.(isRefreshing := true), s.(isRefreshing := false)] +
        (if AnyFailed(o) then [s.(isRefreshing := false, isError := true)] else [])
    ensures var s := Current(events);
      var s' := Current(events + OnRefresh(o));
      && !s'.isRefreshing
      && s'.isError == (s.isError || AnyFailed(o))
      && s'.topRatedMovies == s.topRatedMovies
      && s'.actionMovies == s.actionMovies
      && s'.animationMovies == s.animationMovies
  {
    var s := Current(events);
    var e1 := events + [Refreshing(true)];
    var e2 := e1 + [Refreshing(false)];
    OneInputOneField(events, Refreshing(true));
    OneInputOneField(e1, Refreshing(false));
    assert e2 == events + [Refreshing(true), Refreshing(false)];
    if AnyFailed(o) {
      OneInputOneField(e2, ErrorOccurred(true));
      assert e2 + [ErrorOccurred(true)] == events + OnRefresh(o);
    } else {
      assert e2 == events + OnRefresh(o);
    }
  }

  /** Consuming the error clears the flag and changes nothing else. */
  lemma OnErrorConsumedEffect(events: seq<HomeInput>)
    requires AllEmitted(events)
    ensures UiStates(events + OnErrorConsumed()) == UiStates(events) + [Current(events).(isError := false)]
  {
    OneInputOneField(events, ErrorOccurred(false));
  }

  /* ---------------------------------------------------------------------
     A first screen. */

  /** The inputs' first values: the three lists start `Loading` and both
      flags are false. */
  const FirstValues: seq<HomeInput> := [
    TopRated(Results.Loading), ActionMovies(Results.Loading), AnimationMovies(Results.Loading),
    Refreshing(false), ErrorOccurred(false)]

  /** The first combined value equals the initial value. */
  lemma FirstValuesCombineToInitial()
    ensures AllEmitted(FirstValues)
    ensures UiStates(FirstValues) == [InitialHomeUiState, InitialHomeUiState]
  {
    var start := FirstValues;
    var prefix := start[..4];
    assert start == prefix + [ErrorOccurred(false)];
    assert SourceOf(start[4]) == ErrorSource;
    assert forall i :: 0 <= i < |prefix| ==> SourceOf(prefix[i]) != ErrorSource;
    NothingCombinedUntilAllEmitted(prefix);
    CombineReadyIff(start);
    LatestAfterSnoc(prefix, ErrorOccurred(false));
    LatestAfterSnoc(start[..3], Refreshing(false));
    LatestAfterSnoc(start[..2], AnimationMovies(Results.Loading));
    LatestAfterSnoc(start[..1], ActionMovies(Results.Loading));
    LatestAfterSnoc([], TopRated(Results.Loading));
    assert start[..3] + [Refreshing(false)] == prefix;
    assert start[..2] + [AnimationMovies(Results.Loading)] == start[..3];
    assert start[..1] + [ActionMovies(Results.Loading)] == start[..2];
    assert [] + [TopRated(Results.Loading)] == start[..1];
    assert LatestAfter(start) == Latest(
      Some(Results.Loading), Some(Results.Loading), Some(Results.Loading), Some(false), Some(false));
    assert Combined(start) == [InitialHomeUiState];
  }

  /** A collector first sees the loading screen once (the first combined
      value repeats the initial one); when the top-rated list then arrives,
      it sees a second state differing only in that list. */
  lemma TopRatedArrives(movies: seq<Movie>)
    ensures Observed(FirstValues) == [InitialHomeUiState]
    ensures Observed(FirstValues + [TopRated(Results.Success(movies))]) ==
      [InitialHomeUiState, InitialHomeUiState.(topRatedMovies := Success(movies))]
  {
    var e := TopRated(Results.Success(movies));
    var next := InitialHomeUiState.(topRatedMovies := Success(movies));
    var two := [InitialHomeUiState, InitialHomeUiState];
    FirstValuesCombineToInitial();
    assert UiStates(FirstValues + [e]) == two + [next] by {
      FirstValuesCombineToInitial();
      OneInputOneField(FirstValues, e);
    }
    DistinctSnoc([InitialHomeUiState], InitialHomeUiState);
    assert [InitialHomeUiState] + [InitialHomeUiState] == two;
    assert Distinct(two) == [InitialHomeUiState];
    assert next != InitialHomeUiState by {
      assert next.topRatedMovies != InitialHomeUiState.topRatedMovies;
    }
    DistinctSnoc(two, next);
  }
}
