/** The count-checked fill pass that the cell, sequence, frame and result
    tables of json.c share: a table is allocated with as many slots as a count
    field read earlier says, then the entries of an array are written into it
    one by one, and an entry whose running index is at or past the count is
    fatal (`if (i > count - 1) FATAL_ERROR(...)`). */
module CountedFill {
  import opened Outcomes
  import opened MachineInt
  import opened CJson

  /** The number of slots `malloc(sizeof(T) * count)` provides for a count
      read from the tree; a negative count allocates nothing usable. */
  function AllocLength(count: Int32): nat {
    if count < 0 then 0 else count
  }

  /** Entry k of `entries` is written over slot k of `init` by `fill`, in
      order; an entry at an index at or past |init| is the fatal `overflow`,
      and the first failure, of either kind, stops the pass. */
  function FillChecked<T>(init: seq<T>, entries: seq<Json>, fill: (T, Json) -> Result<T>, overflow: Fatal)
    : (r: Result<seq<T>>)
    ensures r.Success? ==> |r.value| == |init|
    decreases |entries|
  {
    if entries == [] then Success(init)
    else
      var k := |entries| - 1;
      match FillChecked(init, entries[..k], fill, overflow)
      case Failure(e) => Failure(e)
      case Success(done) =>
        if k >= |done| then Failure(overflow)
        else
          match fill(done[k], entries[k])
          case Failure(e) => Failure(e)
          case Success(x) => Success(done[k := x])
  }

  /** After a successful pass, slot k holds the fill of the k-th entry over
      the slot's allocated value, and a slot past the entries keeps that
      value. */
  lemma {:induction false} FillCheckedAt<T>(init: seq<T>, entries: seq<Json>, fill: (T, Json) -> Result<T>,
                                            overflow: Fatal, k: nat)
    requires FillChecked(init, entries, fill, overflow).Success?
    requires k < |init|
    ensures |entries| <= |init|
    ensures k < |entries| ==> fill(init[k], entries[k]).Success? &&
                              FillChecked(init, entries, fill, overflow).value[k] == fill(init[k], entries[k]).value
    ensures k >= |entries| ==> FillChecked(init, entries, fill, overflow).value[k] == init[k]
  {
    if entries != [] {
      var n := |entries| - 1;
      var prefix := entries[..n];
      assert prefix == entries[..n];
      var done := FillChecked(init, prefix, fill, overflow).value;
      FillCheckedAt(init, prefix, fill, overflow, n);
      if k < n {
        FillCheckedAt(init, prefix, fill, overflow, k);
        assert prefix[k] == entries[k];
      } else if k > n {
        FillCheckedAt(init, prefix, fill, overflow, k);
      }
    }
  }

  /** A pass succeeds exactly when there are no more entries than slots and
      every entry's fill succeeds over its slot's allocated value. */
  lemma {:induction false} FillCheckedSuccess<T>(init: seq<T>, entries: seq<Json>, fill: (T, Json) -> Result<T>,
                                                 overflow: Fatal)
    ensures FillChecked(init, entries, fill, overflow).Success? <==>
              |entries| <= |init| && forall k :: 0 <= k < |entries| ==> fill(init[k], entries[k]).Success?
  {
    if FillChecked(init, entries, fill, overflow).Success? {
      forall k | 0 <= k < |entries| ensures fill(init[k], entries[k]).Success? {
        FillCheckedAt(init, entries, fill, overflow, 0);
        FillCheckedAt(init, entries, fill, overflow, k);
      }
      if |entries| > 0 {
        FillCheckedAt(init, entries, fill, overflow, |entries| - 1);
      }
    } else if entries != [] && |entries| <= |init| {
      var n := |entries| - 1;
      var prefix := entries[..n];
      FillCheckedSuccess(init, prefix, fill, overflow);
      if FillChecked(init, prefix, fill, overflow).Success? {
        FillCheckedAt(init, prefix, fill, overflow, n);
        assert !fill(init[n], entries[n]).Success?;
      } else {
        var k :| 0 <= k < |prefix| && !fill(init[k], prefix[k]).Success?;
        assert prefix[k] == entries[k];
      }
    }
  }

  /** When every fill succeeds, the pass fails exactly when there are more
      entries than slots, and then with the table's own overflow diagnostic. */
  lemma {:induction false} FillCheckedOverflow<T>(init: seq<T>, entries: seq<Json>, fill: (T, Json) -> Result<T>,
                                                  overflow: Fatal)
    requires forall x: T, e: Json :: fill(x, e).Success?
    ensures FillChecked(init, entries, fill, overflow).Failure? <==> |entries| > |init|
    ensures FillChecked(init, entries, fill, overflow).Failure? ==>
              FillChecked(init, entries, fill, overflow).error == overflow
  {
    FillCheckedSuccess(init, entries, fill, overflow);
    if entries != [] {
      var n := |entries| - 1;
      assert entries[..n] == entries[..n];
      FillCheckedOverflow(init, entries[..n], fill, overflow);
    }
  }

  /** When the entries exactly fill the table and every fill succeeds, the
      table is the entries' fills, slot by slot. */
  lemma FillCheckedExact<T>(init: seq<T>, entries: seq<Json>, fill: (T, Json) -> Result<T>, overflow: Fatal,
                            filled: seq<T>)
    requires |entries| == |init| == |filled|
    requires forall k :: 0 <= k < |init| ==> fill(init[k], entries[k]) == Success(filled[k])
    ensures FillChecked(init, entries, fill, overflow) == Success(filled)
  {
    FillCheckedSuccess(init, entries, fill, overflow);
    var r := FillChecked(init, entries, fill, overflow).value;
    forall k | 0 <= k < |init| ensures r[k] == filled[k] {
      FillCheckedAt(init, entries, fill, overflow, k);
    }
    assert r == filled;
  }

  /** One more entry, over a slot that exists, extends a successful pass by
      that entry's fill. */
  lemma FillCheckedStep<T>(init: seq<T>, entries: seq<Json>, fill: (T, Json) -> Result<T>, overflow: Fatal,
                           i: nat, done: seq<T>)
    requires i < |entries|
    requires FillChecked(init, entries[..i], fill, overflow) == Success(done)
    ensures FillChecked(init, entries[..i + 1], fill, overflow) ==
              if i >= |done| then Failure(overflow)
              else match fill(done[i], entries[i])
                   case Failure(e) => Failure(e)
                   case Success(x) => Success(done[i := x])
  {
    assert entries[..i + 1][..i] == entries[..i];
  }

  /** The diagnostic of a failing pass is that of its first offending entry
      `f`: the overflow when `f` is the first index past the slots, and
      otherwise the error of that entry's fill over its allocated slot. */
  lemma {:induction false} FillCheckedFailsAt<T>(init: seq<T>, entries: seq<Json>, fill: (T, Json) -> Result<T>,
                                                 overflow: Fatal, f: nat, e: Fatal)
    requires f < |entries| && f <= |init|
    requires forall k :: 0 <= k < f ==> fill(init[k], entries[k]).Success?
    requires f < |init| ==> fill(init[f], entries[f]) == Failure(e)
    ensures FillChecked(init, entries, fill, overflow) == Failure(if f < |init| then e else overflow)
    decreases |entries|
  {
    var n := |entries| - 1;
    var prefix := entries[..n];
    if n > f {
      assert forall k :: 0 <= k <= f ==> prefix[k] == entries[k];
      FillCheckedFailsAt(init, prefix, fill, overflow, f, e);
    } else {
      assert forall k :: 0 <= k < f ==> prefix[k] == entries[k];
      FillCheckedSuccess(init, prefix, fill, overflow);
      if f < |init| {
        FillCheckedAt(init, prefix, fill, overflow, f);
      }
    }
  }

  /** A pass that fails on a prefix of the entries fails the same way on all
      of them: the first failure stops the pass. */
  lemma {:induction false} FillCheckedAbort<T>(init: seq<T>, entries: seq<Json>, fill: (T, Json) -> Result<T>,
                                               overflow: Fatal, i: nat)
    requires i <= |entries|
    requires FillChecked(init, entries[..i], fill, overflow).Failure?
    ensures FillChecked(init, entries, fill, overflow) == FillChecked(init, entries[..i], fill, overflow)
    decreases |entries| - i
  {
    if i < |entries| {
      var n := |entries| - 1;
      assert entries[..n][..i] == entries[..i];
      FillCheckedAbort(init, entries[..n], fill, overflow, i);
    } else {
      assert entries[..i] == entries;
    }
  }
}
