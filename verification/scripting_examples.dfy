/** The merge behaviour the repository's tests pin down, on their own inputs. */
module ScriptingExamples {
  import opened Wrappers
  import opened Values
  import opened UpdateLists
  import opened Scripting
  import opened ScriptingProps

  /** A scalar update replaces the value and keeps the other keys. */
  lemma ValueUpdateExample()
    ensures UpdateConfig(map["A" := Int(1), "B" := Int(2)], map["A" := Int(9)], false, false, false)
            == Success(map["A" := Int(9), "B" := Int(2)])
  {
    var original := map["A" := Int(1), "B" := Int(2)];
    SingleKeyUpdate(original, "A", Int(9), false, false, false);
    assert UpdateEntry(original, "A", Int(9), false, false, false) == Success(Int(9));
    assert original["A" := Int(9)] == map["A" := Int(9), "B" := Int(2)];
  }

  /** A sub-mapping update keeps the sibling key `Y`. */
  lemma SubDictionaryExample()
    ensures UpdateConfig(map["A" := Int(1), "B" := Dict(map["X" := Int(2), "Y" := Int(3)])],
                         map["B" := Dict(map["X" := Int(9)])], false, false, false)
            == Success(map["A" := Int(1), "B" := Dict(map["X" := Int(9), "Y" := Int(3)])])
  {
    var inner := map["X" := Int(2), "Y" := Int(3)];
    var merged := map["X" := Int(9), "Y" := Int(3)];
    InnerValueUpdate();
    var original := map["A" := Int(1), "B" := Dict(inner)];
    assert "B" in original && original["B"] == Dict(inner);
    NestedEntry(original, "B", map["X" := Int(9)], false, false, false);
    assert UpdateEntry(original, "B", Dict(map["X" := Int(9)]), false, false, false) == Success(Dict(merged));
    SingleKeyUpdate(original, "B", Dict(map["X" := Int(9)]), false, false, false);
    assert original["B" := Dict(merged)] == map["A" := Int(1), "B" := Dict(merged)];
  }

  /** The nested merge of the example above. */
  lemma InnerValueUpdate()
    ensures UpdateConfig(map["X" := Int(2), "Y" := Int(3)], map["X" := Int(9)], false, false, false)
            == Success(map["X" := Int(9), "Y" := Int(3)])
  {
    var inner := map["X" := Int(2), "Y" := Int(3)];
    assert "X" in inner;
    assert UpdateEntry(inner, "X", Int(9), false, false, false) == Success(Int(9));
    SingleKeyUpdate(inner, "X", Int(9), false, false, false);
    assert inner["X" := Int(9)] == map["X" := Int(9), "Y" := Int(3)];
  }

  /** `update_list([2, 3], [2, 1])` appends only the new `1`. */
  lemma UpdateListExample()
    ensures UpdateList([Int(2), Int(3)], [Int(2), Int(1)]) == [Int(2), Int(3), Int(1)]
  {
    var xs, ys := [Int(2), Int(3)], [Int(2), Int(1)];
    assert ys[..1] == [Int(2)];
    assert NewElements(xs, ys[..1]) == [];
  }

  /** Default list policy on `[2, 3]` updated by `[2, 1]`. */
  lemma SubListDefaultExample()
    ensures UpdateConfig(map["A" := List([Int(2), Int(3)])], map["A" := List([Int(2), Int(1)])], false, false, false)
            == Success(map["A" := List([Int(2), Int(3), Int(1)])])
  {
    var original := map["A" := List([Int(2), Int(3)])];
    UpdateListExample();
    assert "A" in original && ListBase(original["A"]) == Some([Int(2), Int(3)]);
    ListEntry(original, "A", [Int(2), Int(1)], false, false);
    SingleKeyUpdate(original, "A", List([Int(2), Int(1)]), false, false, false);
    assert UpdateEntry(original, "A", List([Int(2), Int(1)]), false, false, false) == Success(List([Int(2), Int(3), Int(1)]));
    ReplaceSingleton(original, "A", List([Int(2), Int(3), Int(1)]));
  }

  /** `concat_lists` keeps the duplicate `2`. */
  lemma SubListConcatExample()
    ensures UpdateConfig(map["A" := List([Int(2), Int(3)])], map["A" := List([Int(2), Int(1)])], false, true, false)
            == Success(map["A" := List([Int(2), Int(3), Int(2), Int(1)])])
  {
    var original := map["A" := List([Int(2), Int(3)])];
    assert ListBase(List([Int(2), Int(3)])) == Some([Int(2), Int(3)]);
    assert [Int(2), Int(3)] + [Int(2), Int(1)] == [Int(2), Int(3), Int(2), Int(1)];
    SingleKeyUpdate(original, "A", List([Int(2), Int(1)]), false, true, false);
    assert UpdateEntry(original, "A", List([Int(2), Int(1)]), false, true, false) == Success(List([Int(2), Int(3), Int(2), Int(1)]));
    ReplaceSingleton(original, "A", List([Int(2), Int(3), Int(2), Int(1)]));
  }

  /** `overwrite_lists` replaces the list, and takes precedence over `concat_lists`. */
  lemma SubListOverwriteExample()
    ensures UpdateConfig(map["A" := List([Int(2), Int(3)])], map["A" := List([Int(2), Int(1)])], false, true, true)
            == Success(map["A" := List([Int(2), Int(1)])])
  {
    var original := map["A" := List([Int(2), Int(3)])];
    SingleKeyUpdate(original, "A", List([Int(2), Int(1)]), false, true, true);
    assert UpdateEntry(original, "A", List([Int(2), Int(1)]), false, true, true) == Success(List([Int(2), Int(1)]));
    ReplaceSingleton(original, "A", List([Int(2), Int(1)]));
  }

  /** The list flags are not passed to nested merges: with `concat_lists` set, a nested list is
      still combined by `update_list`. */
  lemma NestedListsIgnoreFlagsExample()
    ensures UpdateConfig(map["A" := Dict(map["L" := List([Int(2), Int(3)])])],
                         map["A" := Dict(map["L" := List([Int(2), Int(1)])])], false, true, false)
            == Success(map["A" := Dict(map["L" := List([Int(2), Int(3), Int(1)])])])
  {
    var original := map["A" := Dict(map["L" := List([Int(2), Int(3)])])];
    var merged := Dict(map["L" := List([Int(2), Int(3), Int(1)])]);
    NestedListEntry();
    SingleKeyUpdate(original, "A", Dict(map["L" := List([Int(2), Int(1)])]), false, true, false);
    ReplaceSingleton(original, "A", merged);
  }

  /** The entry for `A` in the example above. */
  lemma NestedListEntry()
    ensures UpdateEntry(map["A" := Dict(map["L" := List([Int(2), Int(3)])])], "A",
                        Dict(map["L" := List([Int(2), Int(1)])]), false, true, false)
            == Success(Dict(map["L" := List([Int(2), Int(3), Int(1)])]))
  {
    var inner := map["L" := List([Int(2), Int(3)])];
    var original := map["A" := Dict(inner)];
    NestedListDefault();
    assert "A" in original && original["A"] == Dict(inner);
    NestedEntry(original, "A", map["L" := List([Int(2), Int(1)])], false, true, false);
  }

  /** The nested merge of the example above, which always uses the default list policy. */
  lemma NestedListDefault()
    ensures UpdateConfig(map["L" := List([Int(2), Int(3)])], map["L" := List([Int(2), Int(1)])], false, false, false)
            == Success(map["L" := List([Int(2), Int(3), Int(1)])])
  {
    var inner := map["L" := List([Int(2), Int(3)])];
    UpdateListExample();
    assert "L" in inner && ListBase(inner["L"]) == Some([Int(2), Int(3)]);
    ListEntry(inner, "L", [Int(2), Int(1)], false, false);
    SingleKeyUpdate(inner, "L", List([Int(2), Int(1)]), false, false, false);
    assert UpdateEntry(inner, "L", List([Int(2), Int(1)]), false, false, false) == Success(List([Int(2), Int(3), Int(1)]));
    ReplaceSingleton(inner, "L", List([Int(2), Int(3), Int(1)]));
  }

  /** A new key raises a `KeyError` naming it by default. */
  lemma NewKeyRejectedExample()
    ensures UpdateConfig(map["A" := Int(1)], map["Z" := Int(1)], false, false, false) == Failure({UnknownKey(["Z"])})
  {
    var original := map["A" := Int(1)];
    assert "Z" !in original by { assert "Z"[0] != "A"[0]; }
    assert UpdateEntry(original, "Z", Int(1), false, false, false) == Failure({UnknownKey(["Z"])});
    SingleKeyUpdate(original, "Z", Int(1), false, false, false);
  }

  /** A new key is inserted when new keys are allowed. */
  lemma NewKeyAllowedExample()
    ensures UpdateConfig(map["A" := Int(1)], map["Z" := Int(1)], true, false, false) == Success(map["A" := Int(1), "Z" := Int(1)])
  {
    var original := map["A" := Int(1)];
    assert "Z" !in original by { assert "Z"[0] != "A"[0]; }
    assert UpdateEntry(original, "Z", Int(1), true, false, false) == Success(Int(1));
    SingleKeyUpdate(original, "Z", Int(1), true, false, false);
    assert original["Z" := Int(1)] == map["A" := Int(1), "Z" := Int(1)];
  }

  /** `None` under a mapping update takes the update's mapping, even with new keys forbidden. */
  lemma NullUnderDictExample()
    ensures UpdateConfig(map["A" := Null], map["A" := Dict(map["X" := Int(1)])], false, false, false)
            == Success(map["A" := Dict(map["X" := Int(1)])])
  {
    var original := map["A" := Null];
    NullOriginalTakesUpdate(original, map["A" := Dict(map["X" := Int(1)])], "A", false, false, false);
    SingleKeyUpdate(original, "A", Dict(map["X" := Int(1)]), false, false, false);
    ReplaceSingleton(original, "A", Dict(map["X" := Int(1)]));
  }

  /** `None` under a list update takes the update's list. */
  lemma NullUnderListExample()
    ensures UpdateConfig(map["A" := Null], map["A" := List([Int(1), Int(2)])], false, false, false)
            == Success(map["A" := List([Int(1), Int(2)])])
  {
    var original := map["A" := Null];
    NewElementsOfEmpty([Int(1), Int(2)]);
    assert UpdateList([], [Int(1), Int(2)]) == [Int(1), Int(2)];
    assert "A" in original && ListBase(original["A"]) == Some([]);
    ListEntry(original, "A", [Int(1), Int(2)], false, false);
    SingleKeyUpdate(original, "A", List([Int(1), Int(2)]), false, false, false);
    assert UpdateEntry(original, "A", List([Int(1), Int(2)]), false, false, false) == Success(List([Int(1), Int(2)]));
    ReplaceSingleton(original, "A", List([Int(1), Int(2)]));
  }

  /** An empty mapping is not `None`: its sub-merge keeps the caller's policy and rejects `X`. */
  lemma EmptyDictUnderDictExample()
    ensures UpdateConfig(map["A" := Dict(map[])], map["A" := Dict(map["X" := Int(1)])], false, false, false)
            == Failure({UnknownKey(["A", "X"])})
  {
    var original := map["A" := Dict(map[])];
    NewKeyIntoEmptyRejected();
    LiftUnknownKey();
    assert "A" in original && original["A"] == Dict(map[]);
    NestedEntry(original, "A", map["X" := Int(1)], false, false, false);
    SingleKeyUpdate(original, "A", Dict(map["X" := Int(1)]), false, false, false);
  }

  /** The nested `KeyError` for `X`, seen from the key `A`. */
  lemma LiftUnknownKey()
    ensures Nest("A", Failure({UnknownKey(["X"])})) == Failure({UnknownKey(["A", "X"])})
  {
    var lifted := Nest("A", Failure({UnknownKey(["X"])}));
    assert ["A"] + ["X"] == ["A", "X"];
    assert UnknownKey(["X"]).Under("A") == UnknownKey(["A", "X"]);
    assert UnknownKey(["A", "X"]) in lifted.error;
    assert forall x :: x in lifted.error ==> x == UnknownKey(["X"]).Under("A");
    assert lifted.error == {UnknownKey(["A", "X"])};
  }

  /** The nested merge of the example above. */
  lemma NewKeyIntoEmptyRejected()
    ensures UpdateConfig(map[], map["X" := Int(1)], false, false, false) == Failure({UnknownKey(["X"])})
  {
    SingleKeyUpdate(map[], "X", Int(1), false, false, false);
  }

  /** Replacing the only key of a one-key mapping. */
  lemma ReplaceSingleton(m: Mapping, k: string, w: Value)
    requires m.Keys == {k}
    ensures m[k := w] == map[k := w]
  {
  }
}
