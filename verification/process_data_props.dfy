/** Properties of the configuration rewriting in the `process_data` script. */
module ProcessDataProps {
  import opened Wrappers
  import opened Values
  import opened ProcessData

  /** What `override_config` needs of the configuration: an `inputs` mapping when an input path
      is given, an `outputs` mapping holding `logging`, and `logging` a mapping when a log option
      is given (its keys are then tested). */
  predicate CanOverride(cfg: Mapping, opts: CliOptions)
  {
    && (opts.input.Some? ==> "inputs" in cfg && cfg["inputs"].Dict?)
    && "outputs" in cfg && cfg["outputs"].Dict?
    && "logging" in cfg["outputs"].entries
    && ((opts.logLevel.Some? || opts.logFile.Some?) ==> cfg["outputs"].entries["logging"].Dict?)
  }

  /** `override_config` raises exactly when the configuration lacks what it needs; a missing
      `inputs` section is reported first. */
  lemma OverrideSucceedsIff(cfg: Mapping, opts: CliOptions)
    ensures OverrideConfig(cfg, opts).Success? <==> CanOverride(cfg, opts)
    ensures opts.input.Some? && "inputs" !in cfg ==> OverrideConfig(cfg, opts) == Failure(MissingKey(["inputs"]))
    ensures (opts.input.None? || ("inputs" in cfg && cfg["inputs"].Dict?)) && "outputs" !in cfg ==>
              OverrideConfig(cfg, opts) == Failure(MissingKey(["outputs"]))
  {
  }

  /** A given input path sets `inputs.image_dir` and nothing else in `inputs`; without one,
      `inputs` is left as it was. */
  lemma OverrideSetsInputDir(cfg: Mapping, opts: CliOptions)
    ensures var r := OverrideConfig(cfg, opts);
            && (r.Success? && opts.input.Some? ==>
                  && r.value["inputs"].Dict?
                  && r.value["inputs"].entries.Keys == cfg["inputs"].entries.Keys + {"image_dir"}
                  && r.value["inputs"].entries["image_dir"] == Str(opts.input.value)
                  && forall j :: j in cfg["inputs"].entries && j != "image_dir" ==>
                       r.value["inputs"].entries[j] == cfg["inputs"].entries[j])
            && (r.Success? && opts.input.None? && "inputs" in cfg ==> r.value["inputs"] == cfg["inputs"])
  {
    assert "outputs" != "inputs" by { assert "outputs"[0] != "inputs"[0]; }
    OverrideSucceedsIff(cfg, opts);
  }

  /** A given output directory sets `outputs.dir`; without one, `outputs.dir` is left as it was
      (present with the same value, or absent). `outputs` gains no other key, and every key but
      `dir` and `logging` (such as the `overwrite` flag checked later) keeps its value. */
  lemma OverrideSetsOutputDir(cfg: Mapping, opts: CliOptions)
    ensures var r := OverrideConfig(cfg, opts);
            && (r.Success? ==> r.value["outputs"].Dict?)
            && (r.Success? ==>
                  r.value["outputs"].entries.Keys ==
                    cfg["outputs"].entries.Keys + (if opts.odir.Some? then {"dir"} else {}))
            && (r.Success? ==> forall j :: j in cfg["outputs"].entries && j != "dir" && j != "logging" ==>
                  r.value["outputs"].entries[j] == cfg["outputs"].entries[j])
            && (r.Success? && opts.odir.Some? ==>
                  "dir" in r.value["outputs"].entries && r.value["outputs"].entries["dir"] == Str(opts.odir.value))
            && (r.Success? && opts.odir.None? ==>
                  && ("dir" in r.value["outputs"].entries <==> "dir" in cfg["outputs"].entries)
                  && ("dir" in cfg["outputs"].entries ==>
                        r.value["outputs"].entries["dir"] == cfg["outputs"].entries["dir"]))
  {
    assert "outputs" != "inputs" by { assert "outputs"[0] != "inputs"[0]; }
    OverrideSucceedsIff(cfg, opts);
  }

  /** The log level and file are written only into keys `outputs.logging` already has: its key set
      never changes, and a key the options do not target keeps its value. */
  lemma OverrideLogging(cfg: Mapping, opts: CliOptions)
    ensures var r := OverrideConfig(cfg, opts);
            r.Success? ==>
              var before := cfg["outputs"].entries["logging"];
              var after := r.value["outputs"].entries["logging"];
              && (!before.Dict? ==> after == before)
              && (before.Dict? ==>
                    && after.Dict? && after.entries.Keys == before.entries.Keys
                    && (opts.logLevel.Some? && "level" in before.entries ==>
                          after.entries["level"] == Str(opts.logLevel.value))
                    && (opts.logFile.Some? && "filename" in before.entries ==>
                          after.entries["filename"] == Str(opts.logFile.value))
                    && (opts.logLevel.None? && "level" in before.entries ==>
                          after.entries["level"] == before.entries["level"])
                    && (opts.logFile.None? && "filename" in before.entries ==>
                          after.entries["filename"] == before.entries["filename"])
                    && forall j :: j in before.entries && j != "level" && j != "filename" ==>
                         after.entries[j] == before.entries[j])
  {
    var r := OverrideConfig(cfg, opts);
    if r.Success? {
      OverrideLoggingEntry(cfg, opts);
      var before := cfg["outputs"].entries["logging"];
      var withLevel := SetIfPresent(before, "level", opts.logLevel);
      assert "level" != "filename" by { assert |"level"| != |"filename"|; }
      assert withLevel.Success?;
      var withFile := SetIfPresent(withLevel.value, "filename", opts.logFile);
    }
  }

  /** On success, `outputs.logging` is the original one passed through both log options. */
  lemma OverrideLoggingEntry(cfg: Mapping, opts: CliOptions)
    ensures var r := OverrideConfig(cfg, opts);
            r.Success? ==>
              && "outputs" in cfg && cfg["outputs"].Dict? && "logging" in cfg["outputs"].entries
              && var before := cfg["outputs"].entries["logging"];
                 var withLevel := SetIfPresent(before, "level", opts.logLevel);
                 && withLevel.Success?
                 && var withFile := SetIfPresent(withLevel.value, "filename", opts.logFile);
                    && withFile.Success?
                    && r.value["outputs"].Dict? && "logging" in r.value["outputs"].entries
                    && r.value["outputs"].entries["logging"] == withFile.value
  {
    assert "outputs" != "inputs" by { assert "outputs"[0] != "inputs"[0]; }
  }

  /** What `reformat_config` needs: `preprocessing` holding `kwarg2`, a `scoring` mapping, and
      `inputs` holding `image_suffix`. */
  predicate CanReformat(cfg: Mapping)
  {
    && "preprocessing" in cfg && cfg["preprocessing"].Dict? && "kwarg2" in cfg["preprocessing"].entries
    && "scoring" in cfg && cfg["scoring"].Dict?
    && "inputs" in cfg && cfg["inputs"].Dict? && "image_suffix" in cfg["inputs"].entries
  }

  /** `reformat_config` raises exactly when the configuration lacks what it reads; the value it
      copies is read before the section it writes, so a missing `kwarg2` is reported even when
      `scoring` is missing too. */
  lemma ReformatSucceedsIff(cfg: Mapping)
    ensures ReformatConfig(cfg).Success? <==> CanReformat(cfg)
    ensures "preprocessing" in cfg && cfg["preprocessing"].Dict? && "kwarg2" !in cfg["preprocessing"].entries ==>
              ReformatConfig(cfg) == Failure(MissingKey(["preprocessing", "kwarg2"]))
  {
  }

  /** After `reformat_config`, `scoring.new_kwarg` equals `preprocessing.kwarg2`; `scoring` gains
      no other key, and the rest of it is unchanged. */
  lemma ReformatSharesKwarg2(cfg: Mapping)
    ensures var r := ReformatConfig(cfg);
            r.Success? ==>
              && CanReformat(cfg)
              && r.value["scoring"].Dict? && r.value["preprocessing"].Dict?
              && "new_kwarg" in r.value["scoring"].entries && "kwarg2" in r.value["preprocessing"].entries
              && r.value["scoring"].entries["new_kwarg"] == r.value["preprocessing"].entries["kwarg2"]
              && r.value["scoring"].entries["new_kwarg"] == cfg["preprocessing"].entries["kwarg2"]
              && r.value["scoring"].entries.Keys == cfg["scoring"].entries.Keys + {"new_kwarg"}
              && forall j :: j in cfg["scoring"].entries && j != "new_kwarg" ==>
                   r.value["scoring"].entries[j] == cfg["scoring"].entries[j]
  {
    ReformatSucceedsIff(cfg);
  }

  /** `preprocessing.kwarg1` becomes 9 exactly when `inputs.image_suffix` is not `".png"`;
      otherwise `preprocessing` is unchanged. */
  lemma ReformatKwarg1(cfg: Mapping)
    ensures var r := ReformatConfig(cfg);
            r.Success? ==>
              var suffix := cfg["inputs"].entries["image_suffix"];
              && (suffix != Str(".png") ==>
                    && r.value["preprocessing"].Dict?
                    && r.value["preprocessing"].entries == cfg["preprocessing"].entries["kwarg1" := Int(9)])
              && (suffix == Str(".png") ==> r.value["preprocessing"] == cfg["preprocessing"])
  {
    ReformatSucceedsIff(cfg);
  }

  /** The colour mode is checked before the overwrite flag: an unknown mode is reported even when
      the flag is wrong too, and a non-boolean flag is reported once the mode is valid. */
  lemma ValidateValuesErrors(cfg: Mapping)
    ensures var mode := Lookup(cfg, "inputs", "color_mode");
            var flag := Lookup(cfg, "outputs", "overwrite");
            && (mode.Success? && mode.value.Str? && mode.value.s !in ValidColorModes ==>
                  ValidateValues(cfg) == Failure(InvalidColorMode(mode.value)))
            && (mode.Success? && mode.value.Str? && mode.value.s in ValidColorModes &&
                flag.Success? && !flag.value.Bool? ==>
                  ValidateValues(cfg) == Failure(OverwriteNotBool(flag.value)))
  {
  }
}
