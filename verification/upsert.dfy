/** `data/UpsertHelper.kt`: insert every item, then update the ones whose
    insert was ignored because of a conflict (insert result -1). */
module Upsert {
  import opened Prelude

  function Min(a: nat, b: nat): nat
  {
    if a < b then a else b
  }

  /** The positions below `n` whose insert result is -1, in increasing order. */
  function IgnoredPositions(insertResults: seq<int>, n: nat): (ps: seq<nat>)
    requires n <= |insertResults|
    ensures forall j :: 0 <= j < |ps| ==> ps[j] < n && insertResults[ps[j]] == -1
    ensures forall j, k :: 0 <= j < k < |ps| ==> ps[j] < ps[k]
    ensures forall i :: 0 <= i < n && insertResults[i] == -1 ==> i in ps
    decreases n
  {
    if n == 0 then []
    else IgnoredPositions(insertResults, n - 1) + (if insertResults[n - 1] == -1 then [n - 1] else [])
  }

  /** The update list: `items.zip(insertResults)` (which stops at the shorter
      list) keeping the items whose result is -1. It holds exactly the items
      at the positions below both lengths whose result is -1, in their
      original order, so no item beyond the results and no item whose insert
      succeeded is ever updated. */
  method UpdateList<T>(items: seq<T>, insertResults: seq<int>) returns (updateList: seq<T>)
    ensures var ps := IgnoredPositions(insertResults, Min(|items|, |insertResults|));
      && |updateList| == |ps|
      && forall j :: 0 <= j < |ps| ==> updateList[j] == items[ps[j]]
    ensures |updateList| <= |items| && |updateList| <= |insertResults|
  {
    var n := Min(|items|, |insertResults|);
    updateList := [];
    var i := 0;
    while i < n
      invariant 0 <= i <= n
      invariant |updateList| == |IgnoredPositions(insertResults, i)|
      invariant forall j :: 0 <= j < |updateList| ==> updateList[j] == items[IgnoredPositions(insertResults, i)[j]]
    {
      if insertResults[i] == -1 {
        updateList := updateList + [items[i]];
      }
      i := i + 1;
    }
    UpdateListBound(insertResults, n);
  }

  /** There are no more ignored positions than positions. */
  lemma {:induction false} UpdateListBound(insertResults: seq<int>, n: nat)
    requires n <= |insertResults|
    ensures |IgnoredPositions(insertResults, n)| <= n
    decreases n
  {
    if n > 0 {
      UpdateListBound(insertResults, n - 1);
    }
  }

  /** The callbacks `upsert` makes: `insertMany` once with every item, then
      `updateMany` with the update list only when it is not empty. */
  datatype UpsertCalls<T> = UpsertCalls(inserted: seq<T>, updated: Option<seq<T>>)

  /** `upsert(items, insertMany, updateMany)`; `insertMany`'s result list is
      given by a function of the list it is called with. */
  method Upsert<T>(items: seq<T>, insertMany: seq<T> -> seq<int>) returns (calls: UpsertCalls<T>)
    ensures calls.inserted == items
    ensures var results := insertMany(items);
      calls.updated.Some? <==>
        exists i :: 0 <= i < |items| && i < |results| && results[i] == -1
    ensures var results := insertMany(items);
      var ps := IgnoredPositions(results, Min(|items|, |results|));
      calls.updated.Some? ==>
        |calls.updated.value| == |ps| && forall j :: 0 <= j < |ps| ==> calls.updated.value[j] == items[ps[j]]
  {
    var insertResults := insertMany(items);
    var updateList := UpdateList(items, insertResults);
    if |updateList| > 0 {
      calls := UpsertCalls(items, Some(updateList));
      var ps := IgnoredPositions(insertResults, Min(|items|, |insertResults|));
      assert ps[0] < |items| && ps[0] < |insertResults| && insertResults[ps[0]] == -1;
    } else {
      calls := UpsertCalls(items, None);
      var ps := IgnoredPositions(insertResults, Min(|items|, |insertResults|));
      assert forall i :: 0 <= i < |items| && i < |insertResults| && insertResults[i] == -1 ==> i in ps;
    }
  }
}
