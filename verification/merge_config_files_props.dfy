/** Properties of `merge_config_files`: a left fold of `update_config` over the configurations. */
module MergeConfigFilesProps {
  import opened Wrappers
  import opened Values
  import opened Scripting
  import opened ScriptingProps

  /** Then-chaining of a fold result: a failure stops everything, a success feeds the next step. */
  function AndThen(r: Merged<Mapping>, cfgs: seq<Mapping>, allowNewKeys: bool): (folded: Merged<Mapping>)
  {
    match r
    case Failure(e) => Failure(e)
    case Success(m) => FoldUpdates(m, cfgs, allowNewKeys)
  }

  /** Folding over `a + b` is folding over `a`, then over `b` from where `a` left off. */
  lemma {:induction false} FoldSplit(acc: Mapping, a: seq<Mapping>, b: seq<Mapping>, allowNewKeys: bool)
    ensures FoldUpdates(acc, a + b, allowNewKeys) == AndThen(FoldUpdates(acc, a, allowNewKeys), b, allowNewKeys)
    decreases |a|
  {
    if a == [] {
      assert a + b == b;
    } else {
      assert (a + b)[0] == a[0];
      assert (a + b)[1..] == a[1..] + b;
      match UpdateConfig(acc, a[0], allowNewKeys, false, false)
      case Failure(e) =>
      case Success(next) =>
        FoldSplit(next, a[1..], b, allowNewKeys);
    }
  }

  /** A fold over one configuration is one merge with the default list policy. */
  lemma FoldSingle(acc: Mapping, cfg: Mapping, allowNewKeys: bool)
    ensures FoldUpdates(acc, [cfg], allowNewKeys) == UpdateConfig(acc, cfg, allowNewKeys, false, false)
  {
    assert [cfg][0] == cfg;
    assert [cfg][1..] == [];
  }

  /** The last configuration is merged, with the default list policy, on top of the merge of all
      earlier ones; new keys are allowed exactly when no defaults were given. */
  lemma MergeConfigFilesSnoc(earlier: seq<Mapping>, last: Mapping, defaults: Option<Mapping>)
    ensures var r := MergeConfigFiles(earlier + [last], defaults);
            var before := MergeConfigFiles(earlier, defaults);
            && (before.Failure? ==> r == before)
            && (before.Success? ==> r == UpdateConfig(before.value, last, defaults.None?, false, false))
  {
    var start := if defaults.Some? then defaults.value else map[];
    FoldSplit(start, earlier, [last], defaults.None?);
    var before := FoldUpdates(start, earlier, defaults.None?);
    if before.Success? {
      FoldSingle(before.value, last, defaults.None?);
    }
  }

  /** Later configurations win: a scalar the last configuration sets is the merged value. */
  lemma LaterConfigWins(earlier: seq<Mapping>, last: Mapping, defaults: Option<Mapping>, k: string)
    requires k in last && IsScalar(last[k])
    ensures var r := MergeConfigFiles(earlier + [last], defaults);
            r.Success? ==> k in r.value && r.value[k] == last[k]
  {
    MergeConfigFilesSnoc(earlier, last, defaults);
    var before := MergeConfigFiles(earlier, defaults);
    if before.Success? {
      ScalarOverwrites(before.value, last, k, defaults.None?, false, false);
    }
  }

  /** Without defaults a single configuration comes back as it is. */
  lemma SingleConfigWithoutDefaults(cfg: Mapping)
    ensures MergeConfigFiles([cfg], None) == Success(cfg)
  {
    FoldSingle(map[], cfg, true);
    MergeIntoEmpty(cfg, false, false);
  }

  /** Merging one configuration over defaults is `update_config` with new keys forbidden, so an
      unknown key raises a `KeyError` naming it. */
  lemma SingleConfigWithDefaults(cfg: Mapping, defaults: Mapping, k: string)
    requires k in cfg && k !in defaults
    ensures var r := MergeConfigFiles([cfg], Some(defaults));
            r.Failure? && UnknownKey([k]) in r.error
  {
  }
}
