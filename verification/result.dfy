/** `core/Result.kt`: the `Result` wrapper and `Flow.asResult()`.

    A cold source flow is collected once per subscription; each collection is
    an `Attempt`: the values it delivered and how it ended. `asResult` emits
    `Loading` when a collection starts, `Success(v)` for every value, and on a
    failure `Error(cause)`; an `IOException` makes it collect the source again
    (after a delay that this model does not represent), any other failure ends
    the output. */
module Results {
  import opened Prelude

  /** The exception a collection of the source fails with. Only an
      `IOException` is retried. */
  datatype Cause = IOException(message: string) | OtherException(message: string)

  /** `Result<T>`: `Error`'s exception is nullable and defaults to null. */
  datatype Result<+T> = Success(data: T) | Error(exception: Option<Cause>) | Loading

  /** How one collection of the source ends. `Complete` also stands for the
      end of a finite observation of a source that never completes. */
  datatype Ending = Complete | Failed(cause: Cause)

  /** One collection of the source. */
  datatype Attempt<+T> = Attempt(values: seq<T>, ending: Ending)

  /** The attempt failed with an `IOException`, so `asResult` collects again. */
  predicate Retried<T>(a: Attempt<T>)
  {
    a.ending.Failed? && a.ending.cause.IOException?
  }

  function Successes<T>(vs: seq<T>): (r: seq<Result<T>>)
    ensures |r| == |vs|
    ensures forall i :: 0 <= i < |vs| ==> r[i] == Success(vs[i])
  {
    Map((v: T) => Success(v), vs)
  }

  /** What one collection contributes before it ends: `Loading` from
      `onStart`, then one `Success` per value from `map`. */
  function Opening<T>(a: Attempt<T>): seq<Result<T>>
  {
    [Loading] + Successes(a.values)
  }

  /** The emissions of `asResult` on a subscription whose successive
      collections of the source are `attempts`. */
  function AsResult<T>(attempts: seq<Attempt<T>>): (r: seq<Result<T>>)
    ensures |attempts| > 0 ==> |r| > 0 && r[0] == Loading
    ensures forall i :: 0 <= i < |r| && r[i].Error? ==> r[i].exception.Some?
    decreases |attempts|
  {
    if |attempts| == 0 then []
    else
      var a := attempts[0];
      Opening(a) +
      match a.ending
      case Complete => []
      case Failed(c) =>
        [Error(Some(c))] + (if c.IOException? then AsResult(attempts[1..]) else [])
  }

  /** The output of a subscription, split after its first collection. */
  lemma AsResultUnfold<T>(attempts: seq<Attempt<T>>)
    requires |attempts| > 0
    ensures attempts[0].ending.Complete? ==> AsResult(attempts) == Opening(attempts[0])
    ensures Retried(attempts[0]) ==>
      AsResult(attempts) == Opening(attempts[0]) + [Error(Some(attempts[0].ending.cause))] + AsResult(attempts[1..])
    ensures attempts[0].ending.Failed? && !Retried(attempts[0]) ==>
      AsResult(attempts) == Opening(attempts[0]) + [Error(Some(attempts[0].ending.cause))]
  {
    var a := attempts[0];
    var open := Opening(a);
    match a.ending
    case Complete =>
      assert AsResult(attempts) == open + [];
      assert open + [] == open;
    case Failed(c) =>
      var err := [Error(Some(c))];
      if c.IOException? {
        var rest := AsResult(attempts[1..]);
        assert AsResult(attempts) == open + (err + rest);
        assert open + (err + rest) == open + err + rest;
      } else {
        assert AsResult(attempts) == open + (err + []);
        assert err + [] == err;
      }
  }

  /** The attempts a subscription actually makes: every one up to and
      including the first that does not fail with an `IOException`. */
  function Reached<T>(attempts: seq<Attempt<T>>): (r: seq<Attempt<T>>)
    ensures |r| <= |attempts| && r == attempts[..|r|]
    ensures |attempts| > 0 ==> |r| > 0
    ensures forall i :: 0 <= i < |r| - 1 ==> Retried(r[i])
    ensures |r| < |attempts| ==> !Retried(r[|r| - 1])
    decreases |attempts|
  {
    if |attempts| == 0 then []
    else if Retried(attempts[0]) then [attempts[0]] + Reached(attempts[1..])
    else [attempts[0]]
  }

  /** All values delivered by the given attempts, in order. */
  function AllValues<T>(attempts: seq<Attempt<T>>): seq<T>
    decreases |attempts|
  {
    if |attempts| == 0 then [] else attempts[0].values + AllValues(attempts[1..])
  }

  /** The data of the `Success` emissions, in order. */
  function Payloads<T>(rs: seq<Result<T>>): seq<T>
    decreases |rs|
  {
    if |rs| == 0 then []
    else (if rs[0].Success? then [rs[0].data] else []) + Payloads(rs[1..])
  }

  /** The exceptions carried by the `Error` emissions, in order. */
  function Causes<T>(rs: seq<Result<T>>): seq<Option<Cause>>
    decreases |rs|
  {
    if |rs| == 0 then []
    else (if rs[0].Error? then [rs[0].exception] else []) + Causes(rs[1..])
  }

  /** The causes of the failed attempts, in order. */
  function FailureCauses<T>(attempts: seq<Attempt<T>>): seq<Option<Cause>>
    decreases |attempts|
  {
    if |attempts| == 0 then []
    else (if attempts[0].ending.Failed? then [Some(attempts[0].ending.cause)] else [])
         + FailureCauses(attempts[1..])
  }

  predicate IsLoading<T>(r: Result<T>) { r.Loading? }

  lemma {:induction false} PayloadsConcat<T>(a: seq<Result<T>>, b: seq<Result<T>>)
    ensures Payloads(a + b) == Payloads(a) + Payloads(b)
    decreases |a|
  {
    if |a| == 0 {
      assert a + b == b;
    } else {
      assert (a + b)[0] == a[0];
      assert (a + b)[1..] == a[1..] + b;
      PayloadsConcat(a[1..], b);
    }
  }

  lemma {:induction false} CausesConcat<T>(a: seq<Result<T>>, b: seq<Result<T>>)
    ensures Causes(a + b) == Causes(a) + Causes(b)
    decreases |a|
  {
    if |a| == 0 {
      assert a + b == b;
    } else {
      assert (a + b)[0] == a[0];
      assert (a + b)[1..] == a[1..] + b;
      CausesConcat(a[1..], b);
      var h := if a[0].Error? then [a[0].exception] else [];
      assert Causes(a + b) == h + Causes(a[1..] + b);
      assert Causes(a) == h + Causes(a[1..]);
    }
  }

  lemma {:induction false} OpeningFacts<T>(a: Attempt<T>)
    ensures Payloads(Opening(a)) == a.values
    ensures Causes(Opening(a)) == []
    ensures Count(IsLoading, Opening(a)) == 1
  {
    var o := Opening(a);
    assert o[0] == Loading;
    assert o[1..] == Successes(a.values);
    SuccessesFacts(a.values);
  }

  lemma {:induction false} SuccessesFacts<T>(vs: seq<T>)
    ensures Payloads(Successes(vs)) == vs
    ensures Causes(Successes(vs)) == []
    ensures Count(IsLoading, Successes(vs)) == 0
    decreases |vs|
  {
    if |vs| > 0 {
      assert Successes(vs)[1..] == Successes(vs[1..]);
      SuccessesFacts(vs[1..]);
    }
  }

  lemma ErrorFacts<T>(e: seq<Result<T>>, c: Cause)
    requires e == [Error(Some(c))]
    ensures Payloads(e) == []
    ensures Causes(e) == [Some(c)]
    ensures Count(IsLoading, e) == 0
  {
    assert e[1..] == [];
  }

  /** Every source value reaches the output as `Success`, in source order,
      none dropped and none duplicated. */
  lemma {:induction false} AsResultDeliversEveryValue<T>(attempts: seq<Attempt<T>>)
    ensures Payloads(AsResult(attempts)) == AllValues(Reached(attempts))
    decreases |attempts|
  {
    if |attempts| > 0 {
      var a := attempts[0];
      AsResultUnfold(attempts);
      OpeningFacts(a);
      assert [a][1..] == [];
      if a.ending.Complete? {
        assert Reached(attempts) == [a];
      } else {
        var c := a.ending.cause;
        var e: seq<Result<T>> := [Error(Some(c))];
        ErrorFacts(e, c);
        PayloadsConcat(Opening(a), e);
        if Retried(a) {
          AsResultDeliversEveryValue(attempts[1..]);
          PayloadsConcat(Opening(a) + e, AsResult(attempts[1..]));
          assert Reached(attempts) == [a] + Reached(attempts[1..]);
          assert ([a] + Reached(attempts[1..]))[1..] == Reached(attempts[1..]);
        } else {
          assert Reached(attempts) == [a];
        }
      }
    }
  }

  /** `Loading` is emitted once per collection of the source: a retry emits
      it again because `onStart` sits upstream of `retryWhen`. */
  lemma {:induction false} AsResultLoadingPerAttempt<T>(attempts: seq<Attempt<T>>)
    ensures Count(IsLoading, AsResult(attempts)) == |Reached(attempts)|
    decreases |attempts|
  {
    if |attempts| > 0 {
      var a := attempts[0];
      AsResultUnfold(attempts);
      OpeningFacts(a);
      if a.ending.Failed? {
        var c := a.ending.cause;
        var e: seq<Result<T>> := [Error(Some(c))];
        ErrorFacts(e, c);
        CountConcat(IsLoading, Opening(a), e);
        if Retried(a) {
          AsResultLoadingPerAttempt(attempts[1..]);
          CountConcat(IsLoading, Opening(a) + e, AsResult(attempts[1..]));
        }
      }
    }
  }

  /** The number of `Loading` emissions is one plus the number of
      `IOException` failures that are followed by another collection. */
  lemma LoadingCountIsOnePlusRetries<T>(attempts: seq<Attempt<T>>)
    requires |attempts| > 0
    requires forall i :: 0 <= i < |attempts| - 1 ==> Retried(attempts[i])
    ensures Count(IsLoading, AsResult(attempts)) == 1 + (|attempts| - 1)
  {
    AsResultLoadingPerAttempt(attempts);
  }

  /** Each failure of a collection reaches the output as exactly one `Error`
      carrying that failure's (non-null) cause, and no other `Error` is
      emitted; a collection that completes normally emits none. */
  lemma {:induction false} AsResultErrorsCarryCauses<T>(attempts: seq<Attempt<T>>)
    ensures Causes(AsResult(attempts)) == FailureCauses(Reached(attempts))
    decreases |attempts|
  {
    if |attempts| > 0 {
      var a := attempts[0];
      AsResultUnfold(attempts);
      OpeningFacts(a);
      if a.ending.Complete? {
        assert Reached(attempts) == [a];
        FailureCausesCons(a, []);
      } else {
        var c := a.ending.cause;
        var e: seq<Result<T>> := [Error(Some(c))];
        ErrorFacts(e, c);
        CausesConcat(Opening(a), e);
        assert Causes(Opening(a) + e) == [Some(c)];
        if Retried(a) {
          var rest := AsResult(attempts[1..]);
          AsResultErrorsCarryCauses(attempts[1..]);
          CausesConcat(Opening(a) + e, rest);
          assert Reached(attempts) == [a] + Reached(attempts[1..]);
          FailureCausesCons(a, Reached(attempts[1..]));
        } else {
          assert Reached(attempts) == [a];
          FailureCausesCons(a, []);
        }
      }
    }
  }

  lemma FailureCausesCons<T>(a: Attempt<T>, rest: seq<Attempt<T>>)
    ensures FailureCauses([a] + rest) ==
      (if a.ending.Failed? then [Some(a.ending.cause)] else []) + FailureCauses(rest)
  {
    assert ([a] + rest)[1..] == rest;
  }

  /** Only an `IOException` can be followed by further output, and what
      follows it is the `Loading` of the next collection; any other failure
      is the last emission. */
  lemma {:induction false} AsResultAfterError<T>(attempts: seq<Attempt<T>>)
    ensures var r := AsResult(attempts);
      forall i :: 0 <= i < |r| - 1 && r[i].Error? ==>
        r[i].exception.value.IOException? && r[i + 1] == Loading
    decreases |attempts|
  {
    var r := AsResult(attempts);
    if |attempts| > 0 {
      var a := attempts[0];
      var head := Opening(a);
      AsResultUnfold(attempts);
      assert forall i :: 0 <= i < |head| ==> !head[i].Error?;
      if a.ending.Failed? {
        var c := a.ending.cause;
        var rest := if c.IOException? then AsResult(attempts[1..]) else [];
        assert r == head + [Error(Some(c))] + rest;
        if c.IOException? {
          AsResultAfterError(attempts[1..]);
        }
        forall i | 0 <= i < |r| - 1 && r[i].Error?
          ensures r[i].exception.value.IOException? && r[i + 1] == Loading
        {
          if i < |head| {
            assert false;
          } else if i == |head| {
            assert |rest| > 0;
            assert r[i] == Error(Some(c));
            assert r[i + 1] == rest[0];
          } else {
            assert r[i] == rest[i - |head| - 1];
            assert r[i + 1] == rest[i + 1 - |head| - 1];
          }
        }
      } else {
        assert r == head;
      }
    }
  }

  /** A non-IO failure yields exactly one `Error`, after which nothing is
      emitted. */
  lemma OtherFailureEndsOutput<T>(attempts: seq<Attempt<T>>, i: nat)
    requires i < |AsResult(attempts)|
    requires AsResult(attempts)[i].Error?
    requires AsResult(attempts)[i].exception.value.OtherException?
    ensures i == |AsResult(attempts)| - 1
  {
    AsResultAfterError(attempts);
  }

  /** When the subscription's last collection completes normally, the output
      is that of the failed collections before it, then `Loading` and one
      `Success` per value: it ends after the last `Success` and contains no
      `Error` for that collection. */
  lemma {:induction false} CompletedCollectionEndsWithSuccesses<T>(attempts: seq<Attempt<T>>)
    requires |attempts| > 0
    requires Reached(attempts)[|Reached(attempts)| - 1].ending.Complete?
    ensures var n := |Reached(attempts)|;
      AsResult(attempts) == AsResult(attempts[..n - 1]) + Opening(attempts[n - 1])
    decreases |attempts|
  {
    var a := attempts[0];
    var n := |Reached(attempts)|;
    AsResultUnfold(attempts);
    if a.ending.Complete? {
      assert Reached(attempts) == [a];
      assert attempts[..0] == [];
    } else {
      assert Retried(a);
      assert Reached(attempts) == [a] + Reached(attempts[1..]);
      var tail := attempts[1..];
      assert |Reached(tail)| == n - 1;
      CompletedCollectionEndsWithSuccesses(tail);
      var before := attempts[..n - 1];
      assert |before| > 0 && before[0] == a;
      assert before[1..] == tail[..n - 2];
      assert tail[n - 2] == attempts[n - 1];
      AsResultUnfold(before);
    }
  }

  /* ---------------------------------------------------------------------
     The operator chain as written: `map`, `onStart`, `retryWhen`, `catch`,
     each modelled on its own over one collection (`Run`) of a flow. */

  /** One collection of a flow: what it emitted and how it ended. */
  datatype Run<+T> = Run(emitted: seq<T>, ending: Ending)

  function SourceRun<T>(a: Attempt<T>): Run<T>
  {
    Run(a.values, a.ending)
  }

  /** `.map { f(it) }`. */
  function MapFlow<A, B>(f: A -> B, run: Run<A>): Run<B>
  {
    Run(Map(f, run.emitted), run.ending)
  }

  /** `.onStart { emit(x) }`. */
  function OnStart<T>(x: T, run: Run<T>): Run<T>
  {
    Run([x] + run.emitted, run.ending)
  }

  /** `.retryWhen { cause, _ -> ... }` over the successive collections of its
      upstream: on a failure the predicate emits and decides whether to
      collect the upstream again. */
  function RetryWhen<T>(runs: seq<Run<T>>, decide: Cause -> (seq<T>, bool)): (r: Run<T>)
    ensures |runs| > 0 ==> |runs[0].emitted| <= |r.emitted| && r.emitted[..|runs[0].emitted|] == runs[0].emitted
    ensures r.ending.Failed? ==> !decide(r.ending.cause).1
    decreases |runs|
  {
    if |runs| == 0 then Run([], Complete)
    else
      var run := runs[0];
      match run.ending
      case Complete => run
      case Failed(c) =>
        var (out, again) := decide(c);
        if again then
          var next := RetryWhen(runs[1..], decide);
          Run(run.emitted + out + next.emitted, next.ending)
        else Run(run.emitted + out, Failed(c))
  }

  /** `.catch { emit(handler(it)) }`: a failure becomes emissions and a normal
      completion. */
  function Catch<T>(run: Run<T>, handler: Cause -> seq<T>): (r: Run<T>)
    ensures r.ending.Complete?
    ensures |run.emitted| <= |r.emitted| && r.emitted[..|run.emitted|] == run.emitted
    ensures run.ending.Complete? ==> r == run
    ensures run.ending.Failed? ==> r.emitted[|run.emitted|..] == handler(run.ending.cause)
  {
    match run.ending
    case Complete => run
    case Failed(c) => Run(run.emitted + handler(c), Complete)
  }

  /** The predicate given to `retryWhen` in `asResult`. */
  function RetryOnIO<T>(c: Cause): (seq<Result<T>>, bool)
  {
    if c.IOException? then ([Error(Some(c))], true) else ([], false)
  }

  /** Upstream of `retryWhen`: the source mapped to `Success` with `Loading`
      emitted at the start of each collection. */
  function Upstream<T>(a: Attempt<T>): Run<Result<T>>
  {
    OnStart(Loading, MapFlow((v: T) => Success(v), SourceRun(a)))
  }

  /** The whole chain of `asResult` as written. */
  function AsResultChain<T>(attempts: seq<Attempt<T>>): (r: Run<Result<T>>)
    ensures r.ending.Complete?
    ensures |attempts| > 0 ==> |r.emitted| > 0 && r.emitted[0] == Loading
  {
    assert |attempts| > 0 ==> Map(Upstream, attempts)[0] == Upstream(attempts[0]);
    Catch(RetryWhen(Map(Upstream, attempts), RetryOnIO), (c: Cause) => [Error(Some(c))])
  }

  lemma {:induction false} RetryWhenMatches<T>(attempts: seq<Attempt<T>>)
    ensures var run := RetryWhen(Map(Upstream, attempts), RetryOnIO);
      match run.ending
      case Complete => run.emitted == AsResult(attempts)
      case Failed(c) => c.OtherException? && run.emitted + [Error(Some(c))] == AsResult(attempts)
    decreases |attempts|
  {
    if |attempts| > 0 {
      var a := attempts[0];
      assert Map(Upstream, attempts)[0] == Upstream(a);
      assert Map(Upstream, attempts)[1..] == Map(Upstream, attempts[1..]);
      if a.ending.Failed? && a.ending.cause.IOException? {
        RetryWhenMatches(attempts[1..]);
      }
    }
  }

  /** The operator chain of `asResult` always completes normally, and emits
      exactly what `AsResult` describes. */
  lemma AsResultChainMatches<T>(attempts: seq<Attempt<T>>)
    ensures AsResultChain(attempts) == Run(AsResult(attempts), Complete)
  {
    RetryWhenMatches(attempts);
  }
}
