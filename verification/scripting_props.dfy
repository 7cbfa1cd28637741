/** Properties of `update_config`: what each kind of update value does to the original. */
module ScriptingProps {
  import opened Wrappers
  import opened Values
  import opened UpdateLists
  import opened Scripting

  /** A successful merge holds, at each key of the update, what applying that key yields. */
  lemma UpdateConfigAtKey(original: Mapping, update: Mapping, k: string, allowNewKeys: bool,
                          concatLists: bool, overwriteLists: bool)
    requires k in update
    ensures var r := UpdateConfig(original, update, allowNewKeys, concatLists, overwriteLists);
            var e := UpdateEntry(original, k, update[k], allowNewKeys, concatLists, overwriteLists);
            r.Success? ==> e == Success(r.value[k])
  {
  }

  /** A key of the update that cannot be applied makes the merge fail, with its errors among the
      merge's errors. */
  lemma UpdateConfigFailsAtKey(original: Mapping, update: Mapping, k: string, allowNewKeys: bool,
                               concatLists: bool, overwriteLists: bool)
    requires k in update
    ensures var r := UpdateConfig(original, update, allowNewKeys, concatLists, overwriteLists);
            var e := UpdateEntry(original, k, update[k], allowNewKeys, concatLists, overwriteLists);
            e.Failure? ==> r.Failure? && e.error <= r.error
  {
  }

  /** Every error a failed merge reports comes from one key of the update: the head of its path
      is that key, whose own application failed with this very error among its errors. */
  lemma ErrorsNameUpdateKeys(original: Mapping, update: Mapping, allowNewKeys: bool,
                             concatLists: bool, overwriteLists: bool)
    ensures var r := UpdateConfig(original, update, allowNewKeys, concatLists, overwriteLists);
            r.Failure? ==> forall e :: e in r.error ==>
              && |e.path| > 0 && e.path[0] in update
              && var entry := UpdateEntry(original, e.path[0], update[e.path[0]], allowNewKeys, concatLists, overwriteLists);
                 entry.Failure? && e in entry.error
  {
    var outcomes := EntryOutcomes(original, update, allowNewKeys, concatLists, overwriteLists);
    forall k, e | k in outcomes && outcomes[k].Failure? && e in outcomes[k].error
      ensures |e.path| > 0 && e.path[0] == k
    {
      assert outcomes[k] == UpdateEntry(original, k, update[k], allowNewKeys, concatLists, overwriteLists);
    }
    ErrorsOfNameKeys(outcomes);
    FailureIsErrorsOf(original, update, allowNewKeys, concatLists, overwriteLists);
  }

  lemma FailureIsErrorsOf(original: Mapping, update: Mapping, allowNewKeys: bool,
                          concatLists: bool, overwriteLists: bool)
    ensures var r := UpdateConfig(original, update, allowNewKeys, concatLists, overwriteLists);
            r.Failure? ==> r.error == ErrorsOf(EntryOutcomes(original, update, allowNewKeys, concatLists, overwriteLists))
  {
  }

  lemma ErrorsOfNameKeys(outcomes: map<string, Merged<Value>>)
    requires forall k, e :: k in outcomes && outcomes[k].Failure? && e in outcomes[k].error ==>
               |e.path| > 0 && e.path[0] == k
    ensures forall e :: e in ErrorsOf(outcomes) ==>
              && |e.path| > 0 && e.path[0] in outcomes
              && outcomes[e.path[0]].Failure? && e in outcomes[e.path[0]].error
  {
    forall e | e in ErrorsOf(outcomes)
      ensures |e.path| > 0 && e.path[0] in outcomes
      ensures outcomes[e.path[0]].Failure? && e in outcomes[e.path[0]].error
    {
      var k :| k in outcomes && outcomes[k].Failure? && e in outcomes[k].error;
    }
  }

  /** The merge succeeds when every key of the update can be applied. */
  lemma UpdateConfigSucceeds(original: Mapping, update: Mapping, allowNewKeys: bool,
                             concatLists: bool, overwriteLists: bool)
    requires forall k :: k in update ==>
               UpdateEntry(original, k, update[k], allowNewKeys, concatLists, overwriteLists).Success?
    ensures UpdateConfig(original, update, allowNewKeys, concatLists, overwriteLists).Success?
  {
  }

  /** An update of one key is applying that key: a success stores the new value at the key, a
      failure is the merge's failure. */
  lemma SingleKeyUpdate(original: Mapping, k: string, v: Value, allowNewKeys: bool,
                        concatLists: bool, overwriteLists: bool)
    ensures var r := UpdateConfig(original, map[k := v], allowNewKeys, concatLists, overwriteLists);
            var e := UpdateEntry(original, k, v, allowNewKeys, concatLists, overwriteLists);
            && (e.Success? ==> r == Success(original[k := e.value]))
            && (e.Failure? ==> r == Failure(e.error))
  {
    var e := UpdateEntry(original, k, v, allowNewKeys, concatLists, overwriteLists);
    var outcomes := EntryOutcomes(original, map[k := v], allowNewKeys, concatLists, overwriteLists);
    SingleKeyOutcomes(original, k, v, allowNewKeys, concatLists, overwriteLists);
    if e.Success? {
      CombineSingle(original, k, e);
    } else {
      ErrorsOfSingle(k, e);
    }
  }

  lemma SingleKeyOutcomes(original: Mapping, k: string, v: Value, allowNewKeys: bool,
                          concatLists: bool, overwriteLists: bool)
    ensures var e := UpdateEntry(original, k, v, allowNewKeys, concatLists, overwriteLists);
            EntryOutcomes(original, map[k := v], allowNewKeys, concatLists, overwriteLists) == map[k := e]
  {
  }

  lemma CombineSingle(original: Mapping, k: string, e: Merged<Value>)
    requires e.Success?
    ensures (forall j :: j in map[k := e] ==> map[k := e][j].Success?)
    ensures Combine(original, map[k := e]) == original[k := e.value]
  {
  }

  lemma ErrorsOfSingle(k: string, e: Merged<Value>)
    requires e.Failure?
    ensures !(forall j :: j in map[k := e] ==> map[k := e][j].Success?)
    ensures ErrorsOf(map[k := e]) == e.error
  {
    var outcomes := map[k := e];
    var errors := ErrorsOf(outcomes);
    assert k in outcomes && outcomes[k].Failure?;
    assert e.error <= errors;
    assert forall x :: x in errors ==> x in e.error;
  }

  /** An empty update is the identity; `tests/test_scripting.py:68` asserts this for `{'A': 1}`. */
  lemma EmptyUpdateIsIdentity(original: Mapping, allowNewKeys: bool, concatLists: bool, overwriteLists: bool)
    ensures UpdateConfig(original, map[], allowNewKeys, concatLists, overwriteLists) == Success(original)
  {
    var r := UpdateConfig(original, map[], allowNewKeys, concatLists, overwriteLists);
    assert r.Success?;
    assert r.value == original;
  }

  /** Merging into an empty mapping with new keys allowed returns the update unchanged, whatever
      the list policy; `tests/test_scripting.py:69` asserts this for `{'A': 1}`. */
  lemma MergeIntoEmpty(update: Mapping, concatLists: bool, overwriteLists: bool)
    ensures UpdateConfig(map[], update, true, concatLists, overwriteLists) == Success(update)
  {
    var outcomes := EntryOutcomes(map[], update, true, concatLists, overwriteLists);
    assert forall k :: k in outcomes ==> outcomes[k] == Success(update[k]);
    assert Combine(map[], outcomes) == update;
  }

  /** A key the original lacks: a `KeyError` naming it unless new keys are allowed, in which case
      the update's value is inserted as it is. */
  lemma UnknownKeyPolicy(original: Mapping, update: Mapping, k: string, allowNewKeys: bool,
                         concatLists: bool, overwriteLists: bool)
    requires k in update && k !in original
    ensures var r := UpdateConfig(original, update, allowNewKeys, concatLists, overwriteLists);
            && (!allowNewKeys ==> r.Failure? && UnknownKey([k]) in r.error)
            && (allowNewKeys && r.Success? ==> r.value[k] == update[k])
  {
    assert UpdateEntry(original, k, update[k], allowNewKeys, concatLists, overwriteLists)
           == if allowNewKeys then Success(update[k]) else Failure({UnknownKey([k])});
    UpdateConfigAtKey(original, update, k, allowNewKeys, concatLists, overwriteLists);
    UpdateConfigFailsAtKey(original, update, k, allowNewKeys, concatLists, overwriteLists);
  }

  /** A value that is neither a mapping nor a list always replaces the original value. */
  lemma ScalarOverwrites(original: Mapping, update: Mapping, k: string, allowNewKeys: bool,
                         concatLists: bool, overwriteLists: bool)
    requires k in update && IsScalar(update[k])
    ensures var r := UpdateConfig(original, update, allowNewKeys, concatLists, overwriteLists);
            r.Success? ==> r.value[k] == update[k]
  {
    UpdateConfigAtKey(original, update, k, allowNewKeys, concatLists, overwriteLists);
  }

  /** An update made of scalars only, on keys the original has (or with new keys allowed), is
      Python's plain `dict.update`: it never fails and its values win every conflict. */
  lemma ScalarUpdateIsDictUpdate(original: Mapping, update: Mapping, allowNewKeys: bool,
                                 concatLists: bool, overwriteLists: bool)
    requires forall k :: k in update ==> IsScalar(update[k])
    requires allowNewKeys || update.Keys <= original.Keys
    ensures UpdateConfig(original, update, allowNewKeys, concatLists, overwriteLists) == Success(original + update)
  {
    var outcomes := EntryOutcomes(original, update, allowNewKeys, concatLists, overwriteLists);
    assert forall k :: k in outcomes ==> outcomes[k] == Success(update[k]);
    assert Combine(original, outcomes) == original + update;
  }

  /** A mapping merged onto a mapping is merged recursively, with the caller's key policy and the
      DEFAULT list policy: the list flags are not passed down. */
  lemma NestedMergeIsRecursive(original: Mapping, update: Mapping, k: string, allowNewKeys: bool,
                               concatLists: bool, overwriteLists: bool)
    requires k in original && k in update && original[k].Dict? && update[k].Dict?
    ensures var r := UpdateConfig(original, update, allowNewKeys, concatLists, overwriteLists);
            var nested := UpdateConfig(original[k].entries, update[k].entries, allowNewKeys, false, false);
            && (r.Success? ==> nested.Success? && r.value[k] == Dict(nested.value))
            && (nested.Failure? ==> r.Failure?)
  {
    var r := UpdateConfig(original, update, allowNewKeys, concatLists, overwriteLists);
    var nested := UpdateConfig(original[k].entries, update[k].entries, allowNewKeys, false, false);
    var e := UpdateEntry(original, k, update[k], allowNewKeys, concatLists, overwriteLists);
    NestedEntry(original, k, update[k].entries, allowNewKeys, concatLists, overwriteLists);
    assert e == Nest(k, nested);
    UpdateConfigAtKey(original, update, k, allowNewKeys, concatLists, overwriteLists);
    UpdateConfigFailsAtKey(original, update, k, allowNewKeys, concatLists, overwriteLists);
  }

  /** The entry of a mapping merged onto a mapping is the nested merge stored under its key. */
  lemma NestedEntry(original: Mapping, k: string, sub: Mapping, allowNewKeys: bool,
                    concatLists: bool, overwriteLists: bool)
    requires k in original && original[k].Dict?
    ensures UpdateEntry(original, k, Dict(sub), allowNewKeys, concatLists, overwriteLists)
            == Nest(k, UpdateConfig(original[k].entries, sub, allowNewKeys, false, false))
  {
    assert k in original && !original[k].Null?;
  }

  /** The merged sub-mapping is not replaced wholesale: it keeps the keys of the original
      sub-mapping the update does not mention, with their values. */
  lemma NestedMergeKeepsSiblings(original: Mapping, update: Mapping, k: string, allowNewKeys: bool,
                                 concatLists: bool, overwriteLists: bool)
    requires k in original && k in update && original[k].Dict? && update[k].Dict?
    ensures var r := UpdateConfig(original, update, allowNewKeys, concatLists, overwriteLists);
            r.Success? ==>
              && r.value[k].Dict?
              && r.value[k].entries.Keys == original[k].entries.Keys + update[k].entries.Keys
              && forall j :: j in original[k].entries && j !in update[k].entries ==>
                   r.value[k].entries[j] == original[k].entries[j]
  {
    NestedMergeIsRecursive(original, update, k, allowNewKeys, concatLists, overwriteLists);
  }

  /** A mapping merged onto `None` yields the update's mapping itself, as merging into `{}` with
      new keys allowed would, even when the caller forbids new keys; that key never fails. */
  lemma NullOriginalTakesUpdate(original: Mapping, update: Mapping, k: string, allowNewKeys: bool,
                                concatLists: bool, overwriteLists: bool)
    requires k in original && original[k] == Null && k in update && update[k].Dict?
    ensures UpdateEntry(original, k, update[k], allowNewKeys, concatLists, overwriteLists) == Success(update[k])
    ensures var r := UpdateConfig(original, update, allowNewKeys, concatLists, overwriteLists);
            r.Success? ==> r.value[k] == update[k]
  {
    MergeIntoEmpty(update[k].entries, false, false);
    assert UpdateEntry(original, k, update[k], allowNewKeys, concatLists, overwriteLists)
           == Nest(k, UpdateConfig(map[], update[k].entries, true, false, false));
    UpdateConfigAtKey(original, update, k, allowNewKeys, concatLists, overwriteLists);
  }

  /** The entry of a list merged onto a value that `original[key] or []` turns into a list. */
  lemma ListEntry(original: Mapping, k: string, items: seq<Value>, allowNewKeys: bool, concatLists: bool)
    requires k in original && ListBase(original[k]).Some?
    ensures var base := ListBase(original[k]).value;
            UpdateEntry(original, k, List(items), allowNewKeys, concatLists, false)
            == Success(List(if concatLists then base + items else UpdateList(base, items)))
  {
    assert k in original;
  }

  /** List policy when the original holds a list: `overwrite_lists` wins over `concat_lists`,
      which wins over the default `update_list`. */
  lemma ListPolicy(original: Mapping, update: Mapping, k: string, allowNewKeys: bool,
                   concatLists: bool, overwriteLists: bool)
    requires k in original && original[k].List? && k in update && update[k].List?
    ensures var r := UpdateConfig(original, update, allowNewKeys, concatLists, overwriteLists);
            var xs, ys := original[k].items, update[k].items;
            && (r.Success? && overwriteLists ==> r.value[k] == List(ys))
            && (r.Success? && !overwriteLists && concatLists ==> r.value[k] == List(xs + ys))
            && (r.Success? && !overwriteLists && !concatLists ==> r.value[k] == List(UpdateList(xs, ys)))
  {
    UpdateConfigAtKey(original, update, k, allowNewKeys, concatLists, overwriteLists);
  }

  /** A falsy original (`None`, `False`, `0`, `""`, `[]`, `{}`) under a list update stands for the
      empty list, so every list policy yields the update's list. */
  lemma FalsyOriginalIsEmptyList(original: Mapping, update: Mapping, k: string, allowNewKeys: bool,
                                 concatLists: bool, overwriteLists: bool)
    requires k in original && !Truthy(original[k]) && k in update && update[k].List?
    ensures var r := UpdateConfig(original, update, allowNewKeys, concatLists, overwriteLists);
            r.Success? ==> r.value[k] == update[k]
  {
    var ys := update[k].items;
    NewElementsOfEmpty(ys);
    assert UpdateList([], ys) == ys;
    assert [] + ys == ys;
    assert UpdateEntry(original, k, update[k], allowNewKeys, concatLists, overwriteLists) == Success(update[k]);
    UpdateConfigAtKey(original, update, k, allowNewKeys, concatLists, overwriteLists);
  }

  /** A truthy original that is not a list cannot be combined with a list update unless lists are
      overwritten. */
  lemma ListOntoTruthyScalarFails(original: Mapping, update: Mapping, k: string, allowNewKeys: bool,
                                  concatLists: bool, overwriteLists: bool)
    requires k in original && Truthy(original[k]) && !original[k].List? && k in update && update[k].List?
    requires !overwriteLists
    ensures var r := UpdateConfig(original, update, allowNewKeys, concatLists, overwriteLists);
            r.Failure? && NotMergeable([k]) in r.error
  {
    assert ListBase(original[k]) == None;
    assert UpdateEntry(original, k, update[k], allowNewKeys, concatLists, overwriteLists) == Failure({NotMergeable([k])});
    UpdateConfigFailsAtKey(original, update, k, allowNewKeys, concatLists, overwriteLists);
  }

  /** With `overwrite_lists`, a list update replaces the original value whatever it is: a list,
      a falsy value or a truthy non-list alike. */
  lemma ListOverwriteReplaces(original: Mapping, update: Mapping, k: string, allowNewKeys: bool,
                              concatLists: bool)
    requires k in original && k in update && update[k].List?
    ensures UpdateEntry(original, k, update[k], allowNewKeys, concatLists, true) == Success(update[k])
    ensures var r := UpdateConfig(original, update, allowNewKeys, concatLists, true);
            r.Success? ==> r.value[k] == update[k]
  {
    UpdateConfigAtKey(original, update, k, allowNewKeys, concatLists, true);
  }

  lemma {:induction false} NewElementsOfEmpty(update: seq<Value>)
    ensures NewElements([], update) == update
    decreases |update|
  {
    if update != [] {
      NewElementsOfEmpty(update[..|update| - 1]);
      assert update == update[..|update| - 1] + [update[|update| - 1]];
    }
  }

  /** A mapping merged onto a non-mapping original other than `None` cannot be merged. */
  lemma DictOntoScalarFails(original: Mapping, update: Mapping, k: string, allowNewKeys: bool,
                            concatLists: bool, overwriteLists: bool)
    requires k in original && !original[k].Dict? && !original[k].Null? && k in update && update[k].Dict?
    ensures var r := UpdateConfig(original, update, allowNewKeys, concatLists, overwriteLists);
            r.Failure? && NotMergeable([k]) in r.error
  {
    assert UpdateEntry(original, k, update[k], allowNewKeys, concatLists, overwriteLists) == Failure({NotMergeable([k])});
    UpdateConfigFailsAtKey(original, update, k, allowNewKeys, concatLists, overwriteLists);
  }

  /** Merging a mapping onto itself with the default or overwrite list policy changes nothing. */
  lemma {:induction false} SelfMergeIsIdentity(m: Mapping, allowNewKeys: bool, overwriteLists: bool)
    ensures UpdateConfig(m, m, allowNewKeys, false, overwriteLists) == Success(m)
    decreases Dict(m)
  {
    var outcomes := EntryOutcomes(m, m, allowNewKeys, false, overwriteLists);
    forall k | k in m
      ensures outcomes[k] == Success(m[k])
    {
      match m[k]
      case Dict(sub) =>
        SelfMergeIsIdentity(sub, allowNewKeys, false);
        assert outcomes[k] == Nest(k, UpdateConfig(sub, sub, allowNewKeys, false, false));
      case List(xs) =>
        NoNewElements(xs, xs);
        assert UpdateList(xs, xs) == xs;
        assert ListBase(m[k]) == Some(xs);
      case _ =>
    }
    assert Combine(m, outcomes) == m;
  }

  /** Applying the same update a second time changes nothing, unless lists are concatenated. */
  lemma {:induction false} UpdateIdempotent(original: Mapping, update: Mapping, allowNewKeys: bool,
                                            overwriteLists: bool)
    requires UpdateConfig(original, update, allowNewKeys, false, overwriteLists).Success?
    ensures var once := UpdateConfig(original, update, allowNewKeys, false, overwriteLists).value;
            UpdateConfig(once, update, allowNewKeys, false, overwriteLists) == Success(once)
    decreases Dict(update), 1
  {
    var once := UpdateConfig(original, update, allowNewKeys, false, overwriteLists).value;
    var outcomes := EntryOutcomes(once, update, allowNewKeys, false, overwriteLists);
    forall k | k in update
      ensures outcomes[k] == Success(once[k])
    {
      ReapplyEntry(original, update, k, allowNewKeys, overwriteLists);
    }
    var again := Combine(once, outcomes);
    assert again.Keys == once.Keys;
    assert forall k :: k in again ==> again[k] == once[k];
    assert again == once;
  }

  /** One key of the update, applied again to the merged mapping, reproduces its merged value. */
  lemma {:induction false} ReapplyEntry(original: Mapping, update: Mapping, k: string, allowNewKeys: bool,
                                        overwriteLists: bool)
    requires UpdateConfig(original, update, allowNewKeys, false, overwriteLists).Success?
    requires k in update
    ensures var once := UpdateConfig(original, update, allowNewKeys, false, overwriteLists).value;
            k in once && UpdateEntry(once, k, update[k], allowNewKeys, false, overwriteLists) == Success(once[k])
    decreases Dict(update), 0
  {
    var once := UpdateConfig(original, update, allowNewKeys, false, overwriteLists).value;
    UpdateConfigAtKey(original, update, k, allowNewKeys, false, overwriteLists);
    var first := UpdateEntry(original, k, update[k], allowNewKeys, false, overwriteLists);
    assert first == Success(once[k]);
    match update[k]
    case Dict(sub) =>
      if k !in original {
        assert once[k] == Dict(sub);
        SelfMergeIsIdentity(sub, allowNewKeys, false);
      } else if original[k].Null? {
        MergeIntoEmpty(sub, false, false);
        assert once[k] == Dict(sub);
        SelfMergeIsIdentity(sub, allowNewKeys, false);
      } else {
        assert original[k].Dict?;
        var nested := UpdateConfig(original[k].entries, sub, allowNewKeys, false, false);
        assert once[k] == Dict(nested.value);
        UpdateIdempotent(original[k].entries, sub, allowNewKeys, false);
      }
    case List(ys) =>
      if !overwriteLists {
        if k !in original {
          assert once[k] == List(ys);
          NoNewElements(ys, ys);
          assert UpdateList(ys, ys) == ys;
        } else {
          var base := ListBase(original[k]).value;
          var zs := UpdateList(base, ys);
          assert once[k] == List(zs);
          assert ListBase(once[k]) == Some(zs);
          UpdateListIdempotent(base, ys);
        }
      }
    case _ =>
  }
}
