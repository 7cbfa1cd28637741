/** The default list-combination policy of the configuration merge (`update_list`). */
module UpdateLists {
  import opened Values

  /** The elements of `update` that do not occur in `original`, in `update`'s order,
      repetitions within `update` included. */
  function NewElements(original: seq<Value>, update: seq<Value>): (r: seq<Value>)
    ensures forall x :: x in r <==> x in update && x !in original
    ensures |r| <= |update|
  {
    if update == [] then []
    else
      var last := update[|update| - 1];
      NewElements(original, update[..|update| - 1]) + (if last in original then [] else [last])
  }

  /** `update_list(original, update)`: `original` followed by the elements of `update` that
      `original` does not already contain. Deduplication is relative to `original` only. */
  function UpdateList(original: seq<Value>, update: seq<Value>): (r: seq<Value>)
    ensures original <= r
    ensures |r| <= |original| + |update|
    ensures forall x :: x in r <==> x in original || x in update
  {
    original + NewElements(original, update)
  }

  /** The loop of `update_list` as written: copy the original, then append each update element
      that the ORIGINAL (not the growing copy) lacks. */
  method UpdateListLoop(original: seq<Value>, update: seq<Value>) returns (merged: seq<Value>)
    ensures merged == UpdateList(original, update)
  {
    merged := original;
    var i := 0;
    while i < |update|
      invariant 0 <= i <= |update|
      invariant merged == original + NewElements(original, update[..i])
    {
      var x := update[i];
      assert update[..i + 1][..i] == update[..i];
      if x !in original {
        merged := merged + [x];
      }
      i := i + 1;
    }
    assert update[..|update|] == update;
  }

  /** Duplicates are kept: a value already in `original` occurs exactly as often as it did there,
      and any other value occurs exactly as often as it does in `update`. */
  lemma {:induction false} UpdateListMultiplicity(original: seq<Value>, update: seq<Value>, x: Value)
    ensures x in original ==> multiset(UpdateList(original, update))[x] == multiset(original)[x]
    ensures x !in original ==> multiset(UpdateList(original, update))[x] == multiset(update)[x]
  {
    NewElementsMultiplicity(original, update, x);
  }

  lemma {:induction false} NewElementsMultiplicity(original: seq<Value>, update: seq<Value>, x: Value)
    ensures multiset(NewElements(original, update))[x] == if x in original then 0 else multiset(update)[x]
    decreases |update|
  {
    if update != [] {
      var init := update[..|update| - 1];
      var last := update[|update| - 1];
      NewElementsMultiplicity(original, init, x);
      SplitLast(update);
      assert multiset(update) == multiset(init) + multiset{last};
      var tail := if last in original then [] else [last];
      assert NewElements(original, update) == NewElements(original, init) + tail;
      assert multiset(NewElements(original, update)) == multiset(NewElements(original, init)) + multiset(tail);
      assert multiset(tail)[x] == if x == last && last !in original then 1 else 0;
      assert multiset{last}[x] == if x == last then 1 else 0;
    }
  }

  lemma SplitLast(s: seq<Value>)
    requires s != []
    ensures s == s[..|s| - 1] + [s[|s| - 1]]
  {
  }

  /** Applying the same update twice changes nothing more than applying it once. */
  lemma {:induction false} UpdateListIdempotent(original: seq<Value>, update: seq<Value>)
    ensures UpdateList(UpdateList(original, update), update) == UpdateList(original, update)
  {
    var once := UpdateList(original, update);
    NoNewElements(once, update);
  }

  lemma {:induction false} NoNewElements(original: seq<Value>, update: seq<Value>)
    requires forall x :: x in update ==> x in original
    ensures NewElements(original, update) == []
    decreases |update|
  {
    if update != [] {
      NoNewElements(original, update[..|update| - 1]);
    }
  }
}
