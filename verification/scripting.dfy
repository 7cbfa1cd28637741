/** The configuration-merging core of `lexpkg.scripting`: `update_config` and `merge_config_files`. */
module Scripting {
  import opened Wrappers
  import opened Values
  import opened UpdateLists

  /** Why a merge raised, with the key path from the top-level mapping to the offending key.
      `UnknownKey` is the `KeyError` raised for a key the original lacks; `NotMergeable` is the
      `AttributeError`/`TypeError` Python raises when a mapping update meets a non-mapping original
      other than `None`, or a list update meets a truthy non-list original. The path is the model's
      own record: Python's `KeyError` names only the last key of it. */
  datatype MergeError = UnknownKey(path: seq<string>) | NotMergeable(path: seq<string>)
  {
    /** The same error seen from one level up, below key `k`. */
    function Under(k: string): (e: MergeError)
      ensures e.path == [k] + path
      ensures e.UnknownKey? == UnknownKey?
    {
      match this
      case UnknownKey(p) => UnknownKey([k] + p)
      case NotMergeable(p) => NotMergeable([k] + p)
    }
  }

  /** A merge either yields a value or fails with the errors it meets. Python stops at the first
      offending key in insertion order; the model, which has no key order, reports every key that
      would raise at the failing level, so Python's exception corresponds to the last key of one
      member's path. */
  type Merged<T> = Result<T, set<MergeError>>

  /** `update_config(original, update, allow_new_keys=..., concat_lists=..., overwrite_lists=...)`.
      The `copy` flag only decides whether Python mutates `original` in place; the model is pure. */
  function UpdateConfig(original: Mapping, update: Mapping, allowNewKeys: bool,
                        concatLists: bool, overwriteLists: bool): (r: Merged<Mapping>)
    decreases Dict(update), 1
    ensures r.Failure? ==> r.error != {}
    ensures r.Success? ==> r.value.Keys == original.Keys + update.Keys
    ensures r.Success? ==> forall k :: k in original && k !in update ==> r.value[k] == original[k]
    ensures !allowNewKeys && r.Success? ==> update.Keys <= original.Keys
    ensures forall k :: k in update && k !in original && !allowNewKeys ==>
              r.Failure? && UnknownKey([k]) in r.error
  {
    var outcomes := EntryOutcomes(original, update, allowNewKeys, concatLists, overwriteLists);
    if forall k :: k in outcomes ==> outcomes[k].Success? then Success(Combine(original, outcomes))
    else Failure(ErrorsOf(outcomes))
  }

  /** What applying each key of the update yields, key by key. */
  function EntryOutcomes(original: Mapping, update: Mapping, allowNewKeys: bool,
                         concatLists: bool, overwriteLists: bool): (outcomes: map<string, Merged<Value>>)
    decreases Dict(update), 0
    ensures outcomes.Keys == update.Keys
    ensures forall k :: k in outcomes ==>
              outcomes[k] == UpdateEntry(original, k, update[k], allowNewKeys, concatLists, overwriteLists)
  {
    map k | k in update :: UpdateEntry(original, k, update[k], allowNewKeys, concatLists, overwriteLists)
  }

  /** The original with every successfully applied key replaced by its new value. */
  function Combine(original: Mapping, outcomes: map<string, Merged<Value>>): (m: Mapping)
    requires forall k :: k in outcomes ==> outcomes[k].Success?
    ensures m.Keys == original.Keys + outcomes.Keys
    ensures forall k :: k in outcomes ==> m[k] == outcomes[k].value
    ensures forall k :: k in original && k !in outcomes ==> m[k] == original[k]
  {
    map k | k in original.Keys + outcomes.Keys :: if k in outcomes then outcomes[k].value else original[k]
  }

  /** Every error raised at some key. */
  function ErrorsOf(outcomes: map<string, Merged<Value>>): (errors: set<MergeError>)
    ensures forall k :: k in outcomes && outcomes[k].Failure? ==> outcomes[k].error <= errors
    ensures forall e :: e in errors ==> exists k :: k in outcomes && outcomes[k].Failure? && e in outcomes[k].error
  {
    set k, e | k in outcomes && outcomes[k].Failure? && e in outcomes[k].error :: e
  }

  /** One iteration of the loop of `update_config`: the new value at `key` once the update's
      value `val` is applied, or the errors that raises. */
  function UpdateEntry(original: Mapping, key: string, val: Value, allowNewKeys: bool,
                       concatLists: bool, overwriteLists: bool): (r: Merged<Value>)
    decreases val, 2
    ensures r.Failure? ==> r.error != {}
    ensures r.Failure? ==> forall e :: e in r.error ==> |e.path| > 0 && e.path[0] == key
    ensures key !in original ==> (r.Success? <==> allowNewKeys) && (r.Success? ==> r.value == val)
    ensures key in original && IsScalar(val) ==> r == Success(val)
    ensures key in original && val.List? && overwriteLists ==> r == Success(val)
  {
    if key !in original then
      if allowNewKeys then Success(val) else Failure({UnknownKey([key])})
    else
      match val
      case Dict(sub) =>
        // The recursive calls forward neither list flag: nested lists always use `update_list`.
        if original[key].Null? then Nest(key, UpdateConfig(map[], sub, true, false, false))
        else if original[key].Dict? then Nest(key, UpdateConfig(original[key].entries, sub, allowNewKeys, false, false))
        else Failure({NotMergeable([key])})
      case List(items) =>
        if overwriteLists then Success(val)
        else
          (match ListBase(original[key])
           case Some(base) =>
             Success(List(if concatLists then base + items else UpdateList(base, items)))
           case None => Failure({NotMergeable([key])}))
      case _ => Success(val)
  }

  /** `original[key] or []` as a list: a falsy original stands for the empty list, a list for
      itself, and any other truthy value cannot be combined with a list. */
  function ListBase(v: Value): (r: Option<seq<Value>>)
    ensures !Truthy(v) ==> r == Some([])
    ensures v.List? ==> r == Some(v.items)
    ensures r.Some? <==> v.List? || !Truthy(v)
  {
    if !Truthy(v) then Some([])
    else if v.List? then Some(v.items)
    else None
  }

  /** The result of a nested merge stored under `key`. */
  function Nest(key: string, r: Merged<Mapping>): (n: Merged<Value>)
    ensures r.Success? ==> n == Success(Dict(r.value))
    ensures r.Failure? ==> n.Failure? && n.error == set e | e in r.error :: e.Under(key)
    ensures r.Failure? && r.error != {} ==> n.error != {}
    ensures n.Failure? ==> forall e :: e in n.error ==> |e.path| > 0 && e.path[0] == key
  {
    match r
    case Success(m) => Success(Dict(m))
    case Failure(es) =>
      var lifted := set e | e in es :: e.Under(key);
      assert es != {} ==> (var e :| e in es; e.Under(key) in lifted);
      Failure(lifted)
  }

  /** The union of the top-level keys of a sequence of mappings. */
  function KeysOf(cfgs: seq<Mapping>): (ks: set<string>)
    ensures forall i, k :: 0 <= i < |cfgs| && k in cfgs[i] ==> k in ks
    ensures forall k :: k in ks ==> exists i :: 0 <= i < |cfgs| && k in cfgs[i]
  {
    if cfgs == [] then {} else cfgs[0].Keys + KeysOf(cfgs[1..])
  }

  /** The loop of `merge_config_files`: merge each configuration onto the accumulated one, in
      order, with default list policy, stopping at the first that raises. */
  function FoldUpdates(acc: Mapping, cfgs: seq<Mapping>, allowNewKeys: bool): (r: Merged<Mapping>)
    ensures r.Failure? ==> r.error != {}
    ensures r.Success? ==> r.value.Keys == acc.Keys + KeysOf(cfgs)
    ensures !allowNewKeys && r.Success? ==> KeysOf(cfgs) <= acc.Keys
    decreases |cfgs|
  {
    if cfgs == [] then Success(acc)
    else
      match UpdateConfig(acc, cfgs[0], allowNewKeys, false, false)
      case Failure(e) => Failure(e)
      case Success(next) => FoldUpdates(next, cfgs[1..], allowNewKeys)
  }

  /** `merge_config_files(cfgs, default_cfg)`. With defaults, every key a configuration supplies
      must already exist in them; without, the merge starts from `{}` and accepts any key. */
  function MergeConfigFiles(cfgs: seq<Mapping>, defaults: Option<Mapping>): (r: Merged<Mapping>)
    ensures r.Failure? ==> r.error != {}
    ensures defaults.Some? && r.Success? ==> r.value.Keys == defaults.value.Keys
    ensures defaults.Some? && !(KeysOf(cfgs) <= defaults.value.Keys) ==> r.Failure?
    ensures defaults.None? && r.Success? ==> r.value.Keys == KeysOf(cfgs)
  {
    match defaults
    case Some(d) => FoldUpdates(d, cfgs, false)
    case None => FoldUpdates(map[], cfgs, true)
  }
}
