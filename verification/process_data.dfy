/** The pure configuration rewriting of the `process_data` script: command-line overrides, derived
    values, and the value checks of its validation step. */
module ProcessData {
  import opened Wrappers
  import opened Values

  /** The command-line options `override_config` reads, each already converted by `str()`. */
  datatype CliOptions = CliOptions(
    input: Option<string>,
    odir: Option<string>,
    logLevel: Option<string>,
    logFile: Option<string>)

  /** What the script raises on a configuration it cannot use. */
  datatype ConfigError =
    | MissingKey(path: seq<string>)      // `KeyError`: the key at the end of `path` is absent
    | NotAMapping(path: seq<string>)     // `TypeError`: the value at `path` cannot be subscripted by a key
    | InvalidColorMode(mode: Value)      // `ValueError` from the colour-mode check
    | OverwriteNotBool(flag: Value)      // `TypeError` from the overwrite-flag check

  /** The colour modes the image reader accepts. */
  const ValidColorModes: set<string> := {"RGB", "BGR", "GRAYSCALE", "UNCHANGED"}

  /** `cfg[name]`, which must be a mapping. */
  function Section(cfg: Mapping, name: string): (r: Result<Mapping, ConfigError>)
    ensures r.Success? <==> name in cfg && cfg[name].Dict?
    ensures r.Success? ==> r.value == cfg[name].entries
    ensures name !in cfg ==> r == Failure(MissingKey([name]))
    ensures name in cfg && !cfg[name].Dict? ==> r == Failure(NotAMapping([name]))
  {
    if name !in cfg then Failure(MissingKey([name]))
    else if cfg[name].Dict? then Success(cfg[name].entries)
    else Failure(NotAMapping([name]))
  }

  /** `cfg[name][key]`. */
  function Lookup(cfg: Mapping, name: string, key: string): (r: Result<Value, ConfigError>)
    ensures r.Success? <==> name in cfg && cfg[name].Dict? && key in cfg[name].entries
    ensures r.Success? ==> r.value == cfg[name].entries[key]
    ensures name in cfg && cfg[name].Dict? && key !in cfg[name].entries ==> r == Failure(MissingKey([name, key]))
  {
    var section :- Section(cfg, name);
    if key in section then Success(section[key]) else Failure(MissingKey([name, key]))
  }

  /** `cfg[name][key] = v`: creates `key` if needed, but never the section itself. */
  function Assign(cfg: Mapping, name: string, key: string, v: Value): (r: Result<Mapping, ConfigError>)
    ensures r.Success? <==> name in cfg && cfg[name].Dict?
    ensures r.Success? ==> r.value.Keys == cfg.Keys
    ensures r.Success? ==> forall k :: k in cfg && k != name ==> r.value[k] == cfg[k]
    ensures r.Success? ==> r.value[name].Dict? && r.value[name].entries.Keys == cfg[name].entries.Keys + {key}
    ensures r.Success? ==> r.value[name].entries[key] == v
    ensures r.Success? ==> forall j :: j in cfg[name].entries && j != key ==>
                             r.value[name].entries[j] == cfg[name].entries[j]
    ensures r.Failure? ==> r == Section(cfg, name).PropagateFailure()
  {
    var section :- Section(cfg, name);
    Success(cfg[name := Dict(section[key := v])])
  }

  /** `if opt: if key in log_cfg: log_cfg[key] = opt` on the `outputs.logging` value. */
  function SetIfPresent(logging: Value, key: string, opt: Option<string>): (r: Result<Value, ConfigError>)
    ensures opt.None? ==> r == Success(logging)
    ensures opt.Some? && !logging.Dict? ==> r == Failure(NotAMapping(["outputs", "logging"]))
    ensures r.Success? && logging.Dict? ==> r.value.Dict? && r.value.entries.Keys == logging.entries.Keys
    ensures r.Success? && logging.Dict? && opt.Some? && key in logging.entries ==>
              r.value.entries[key] == Str(opt.value)
    ensures r.Success? && logging.Dict? ==> forall j :: j in logging.entries && (j != key || opt.None?) ==>
              r.value.entries[j] == logging.entries[j]
  {
    match opt
    case None => Success(logging)
    case Some(s) =>
      if !logging.Dict? then Failure(NotAMapping(["outputs", "logging"]))
      else if key in logging.entries then Success(Dict(logging.entries[key := Str(s)]))
      else Success(logging)
  }

  /** `override_config(cfg, args)`: overlay the command-line options on the configuration. With
      the default `copy=True` Python works on a deep copy, which the pure model makes implicit. */
  function OverrideConfig(cfg: Mapping, opts: CliOptions): (r: Result<Mapping, ConfigError>)
    ensures r.Success? ==> r.value.Keys == cfg.Keys
    ensures r.Success? ==> forall k :: k in cfg && k != "inputs" && k != "outputs" ==> r.value[k] == cfg[k]
  {
    var withInput :- if opts.input.Some? then Assign(cfg, "inputs", "image_dir", Str(opts.input.value)) else Success(cfg);
    var withDir :- if opts.odir.Some? then Assign(withInput, "outputs", "dir", Str(opts.odir.value)) else Success(withInput);
    var outputs :- Section(withDir, "outputs");
    var logging :- if "logging" in outputs then Success(outputs["logging"]) else Failure(MissingKey(["outputs", "logging"]));
    var withLevel :- SetIfPresent(logging, "level", opts.logLevel);
    var withFile :- SetIfPresent(withLevel, "filename", opts.logFile);
    Success(withDir["outputs" := Dict(outputs["logging" := withFile])])
  }

  /** `reformat_config(cfg)`: share `preprocessing.kwarg2` with scoring as `new_kwarg`, and set
      `preprocessing.kwarg1` to 9 for inputs that are not PNG files. */
  function ReformatConfig(cfg: Mapping): (r: Result<Mapping, ConfigError>)
    ensures r.Success? ==> r.value.Keys == cfg.Keys
    ensures r.Success? ==> forall k :: k in cfg && k != "scoring" && k != "preprocessing" ==> r.value[k] == cfg[k]
  {
    // Python evaluates the right-hand side `cfg["preprocessing"]["kwarg2"]` before the target.
    var kwarg2 :- Lookup(cfg, "preprocessing", "kwarg2");
    var shared :- Assign(cfg, "scoring", "new_kwarg", kwarg2);
    var suffix :- Lookup(shared, "inputs", "image_suffix");
    if suffix != Str(".png") then Assign(shared, "preprocessing", "kwarg1", Int(9))
    else Success(shared)
  }

  /** The value checks of `validate_config`: the colour mode is one of the four known names, and the
      overwrite flag is a boolean. The path checks that precede them touch the file system. */
  function ValidateValues(cfg: Mapping): (r: Result<(), ConfigError>)
    ensures r.Success? <==>
              && Lookup(cfg, "inputs", "color_mode").Success?
              && Lookup(cfg, "inputs", "color_mode").value in [Str("RGB"), Str("BGR"), Str("GRAYSCALE"), Str("UNCHANGED")]
              && Lookup(cfg, "outputs", "overwrite").Success?
              && Lookup(cfg, "outputs", "overwrite").value.Bool?
    ensures Lookup(cfg, "inputs", "color_mode").Failure? ==> r == Failure(Lookup(cfg, "inputs", "color_mode").error)
    ensures Lookup(cfg, "inputs", "color_mode").Success? && !(Lookup(cfg, "inputs", "color_mode").value.Str?) ==>
              r == Failure(InvalidColorMode(Lookup(cfg, "inputs", "color_mode").value))
  {
    var mode :- Lookup(cfg, "inputs", "color_mode");
    if !(mode.Str? && mode.s in ValidColorModes) then Failure(InvalidColorMode(mode))
    else
      var flag :- Lookup(cfg, "outputs", "overwrite");
      if !flag.Bool? then Failure(OverwriteNotBool(flag)) else Success(())
  }
}
