/** Small generic vocabulary shared by the rest of the model: an optional value
    (Kotlin's nullable types), the list operations the code uses (`filter`,
    `map`, `count`), and the equality conflation a `StateFlow` applies to the
    values it holds. */
module Prelude {

  /** A Kotlin `T?`: either absent (`null`) or present. */
  datatype Option<+T> = None | Some(value: T)

  /** Kotlin's `filter`: the elements of `s` satisfying `p`, in their order. */
  function Filter<T>(p: T -> bool, s: seq<T>): (r: seq<T>)
    ensures |r| <= |s|
    ensures forall i :: 0 <= i < |r| ==> p(r[i])
    ensures forall i :: 0 <= i < |r| ==> r[i] in s
  {
    if |s| == 0 then []
    else
      assert s == [s[0]] + s[1..];
      (if p(s[0]) then [s[0]] else []) + Filter(p, s[1..])
  }

  /** Every element satisfying the predicate survives filtering. */
  lemma {:induction false} FilterKeeps<T>(p: T -> bool, s: seq<T>, i: nat)
    requires i < |s| && p(s[i])
    ensures s[i] in Filter(p, s)
    decreases |s|
  {
    if i > 0 {
      FilterKeeps(p, s[1..], i - 1);
      assert s[1..][i - 1] == s[i];
    }
  }

  /** Filtering distributes over concatenation. */
  lemma {:induction false} FilterConcat<T>(p: T -> bool, a: seq<T>, b: seq<T>)
    ensures Filter(p, a + b) == Filter(p, a) + Filter(p, b)
    decreases |a|
  {
    if |a| > 0 {
      assert (a + b)[1..] == a[1..] + b;
      FilterConcat(p, a[1..], b);
    } else {
      assert a + b == b;
    }
  }

  /** Filtering with a predicate that every element satisfies keeps everything. */
  lemma {:induction false} FilterAll<T>(p: T -> bool, s: seq<T>)
    requires forall i :: 0 <= i < |s| ==> p(s[i])
    ensures Filter(p, s) == s
    decreases |s|
  {
    if |s| > 0 {
      FilterAll(p, s[1..]);
    }
  }

  /** Filtering with a predicate that no element satisfies keeps nothing. */
  lemma {:induction false} FilterNone<T>(p: T -> bool, s: seq<T>)
    requires forall i :: 0 <= i < |s| ==> !p(s[i])
    ensures Filter(p, s) == []
    decreases |s|
  {
    if |s| > 0 {
      FilterNone(p, s[1..]);
    }
  }

  /** Filtering a filtered sequence with a stronger predicate is filtering
      the original with it. */
  lemma {:induction false} FilterOfFilter<T>(p: T -> bool, q: T -> bool, s: seq<T>)
    requires forall i :: 0 <= i < |s| && p(s[i]) ==> q(s[i])
    ensures Filter(p, Filter(q, s)) == Filter(p, s)
    decreases |s|
  {
    if |s| > 0 {
      FilterOfFilter(p, q, s[1..]);
      if q(s[0]) {
        var x := Filter(q, s);
        assert x == [s[0]] + Filter(q, s[1..]);
        assert x[0] == s[0];
        assert x[1..] == Filter(q, s[1..]);
        assert Filter(p, x) == (if p(s[0]) then [s[0]] else []) + Filter(p, x[1..]);
        assert Filter(p, x[1..]) == Filter(p, s[1..]);
        assert Filter(p, s) == (if p(s[0]) then [s[0]] else []) + Filter(p, s[1..]);
      } else {
        assert !p(s[0]);
        assert Filter(q, s) == Filter(q, s[1..]);
        assert Filter(p, s) == Filter(p, s[1..]);
      }
    }
  }

  /** Filtering a filtered sequence with a predicate excluded by the first
      filter keeps nothing. */
  lemma {:induction false} FilterOfFilterDisjoint<T>(p: T -> bool, q: T -> bool, s: seq<T>)
    requires forall i :: 0 <= i < |s| && p(s[i]) ==> !q(s[i])
    ensures Filter(p, Filter(q, s)) == []
  {
    FilterNone(p, Filter(q, s));
  }

  /** Filtering commutes with a map that does not change what the predicate
      looks at. */
  lemma {:induction false} FilterMap<A, B>(p: B -> bool, q: A -> bool, f: A -> B, s: seq<A>)
    requires forall i :: 0 <= i < |s| ==> p(f(s[i])) == q(s[i])
    ensures Filter(p, Map(f, s)) == Map(f, Filter(q, s))
    decreases |s|
  {
    if |s| > 0 {
      assert Map(f, s)[1..] == Map(f, s[1..]);
      FilterMap(p, q, f, s[1..]);
      assert Map(f, s) == [f(s[0])] + Map(f, s[1..]);
      var rest := Filter(q, s[1..]);
      if q(s[0]) {
        assert Map(f, [s[0]] + rest) == [f(s[0])] + Map(f, rest);
      }
    }
  }

  /** Kotlin's `map`: `f` applied to every element, order and length kept. */
  function Map<A, B>(f: A -> B, s: seq<A>): (r: seq<B>)
    ensures |r| == |s|
    ensures forall i :: 0 <= i < |s| ==> r[i] == f(s[i])
  {
    seq(|s|, i requires 0 <= i < |s| => f(s[i]))
  }

  /** The number of elements of `s` satisfying `p`. */
  function Count<T>(p: T -> bool, s: seq<T>): (n: nat)
    ensures n <= |s|
    ensures n == |Filter(p, s)|
  {
    if |s| == 0 then 0
    else (if p(s[0]) then 1 else 0) + Count(p, s[1..])
  }

  lemma {:induction false} CountConcat<T>(p: T -> bool, a: seq<T>, b: seq<T>)
    ensures Count(p, a + b) == Count(p, a) + Count(p, b)
  {
    FilterConcat(p, a, b);
  }

  /** No element of `s` equals the one right before it. */
  ghost predicate NoRepeats<T>(s: seq<T>)
  {
    forall i :: 0 < i < |s| ==> s[i] != s[i - 1]
  }

  /** What a collector observes of a `StateFlow` whose value is assigned the
      elements of `s` in turn: an assignment equal to the current value is
      not an emission. */
  function Distinct<T(==)>(s: seq<T>): (r: seq<T>)
    ensures |r| <= |s|
    ensures |s| > 0 <==> |r| > 0
    ensures |s| > 0 ==> r[0] == s[0] && r[|r| - 1] == s[|s| - 1]
    ensures forall i :: 0 <= i < |r| ==> r[i] in s
    ensures NoRepeats(r)
  {
    if |s| <= 1 then s
    else if s[|s| - 1] == s[|s| - 2] then Distinct(s[..|s| - 1])
    else Distinct(s[..|s| - 1]) + [s[|s| - 1]]
  }

  /** One more assignment is observed unless it repeats the current value. */
  lemma DistinctSnoc<T>(s: seq<T>, x: T)
    requires |s| > 0
    ensures Distinct(s + [x]) == if x == s[|s| - 1] then Distinct(s) else Distinct(s) + [x]
  {
    assert (s + [x])[..|s|] == s;
  }

  /** A trace with no repeated neighbours is observed as it is. */
  lemma {:induction false} DistinctOfNoRepeats<T>(s: seq<T>)
    requires NoRepeats(s)
    ensures Distinct(s) == s
    decreases |s|
  {
    if |s| > 1 {
      DistinctOfNoRepeats(s[..|s| - 1]);
      assert s[..|s| - 1] + [s[|s| - 1]] == s;
    }
  }
}
