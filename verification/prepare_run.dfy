/**
 * The gear's run script of prepare_run.py: the aslprep argument list `write_aslprep_command`
 * builds from the gear configuration and input paths, the script text made of it, and the
 * two-stage `main` with its exit codes. The Flywheel context is replaced by parameters.
 */
module PrepareRun {
  import opened Wrappers
  import opened Strings

  // ---------------------------------------------------------------------------------------------
  // Configuration values and the gear's inputs

  /** A value of the gear configuration: a JSON string, boolean or integer, or Python's `None`. */
  datatype Value = Str(s: string) | Bool(b: bool) | Int(i: int) | Null

  type Config = map<string, Value>

  /** `config.get(key)`: the stored value, and `None` for a missing key. */
  function Get(config: Config, key: string): (v: Value)
    ensures key in config ==> v == config[key]
    ensures key !in config ==> v == Null
  {
    if key in config then config[key] else Null
  }

  /** Python truthiness: every value is true except `None`, `''`, `False` and `0`. */
  predicate Truthy(v: Value)
    ensures !Truthy(v) <==> v == Null || v == Str("") || v == Bool(false) || v == Int(0)
  {
    match v
    case Str(s) => |s| > 0
    case Bool(b) => b
    case Int(i) => i != 0
    case Null => false
  }

  /** `str(v)`: a string is itself, `None` is 'None', and an integer is written in decimal and reads back as itself. */
  function PyStr(v: Value): (r: string)
    ensures v.Str? ==> r == v.s
    ensures v == Null ==> r == "None"
    ensures v.Bool? ==> r == (if v.b then "True" else "False")
    ensures v.Int? && v.i >= 0 ==> IsDigits(r) && DecimalValue(r) == v.i
    ensures v.Int? && v.i < 0 ==> |r| >= 1 && r[0] == '-' && IsDigits(r[1..]) && DecimalValue(r[1..]) == -v.i
  {
    match v
    case Str(s) => s
    case Bool(b) => if b then "True" else "False"
    case Int(i) => IntToString(i)
    case Null => "None"
  }

  /**
   * What the module-level setup derives from the Flywheel context: the BIDS root, the output root,
   * the working directory, the analysis id, and the paths of the inputs that were given.
   */
  datatype GearInputs = GearInputs(
    bidsRoot: string,
    outputRoot: string,
    workingDir: string,
    analysisId: string,
    inputPaths: map<string, string>)

  /** `context.get_input_path(name)`: the path of a given input, `None` otherwise. */
  function InputPath(inputs: GearInputs, name: string): (v: Value)
    ensures v == Null <==> name !in inputs.inputPaths
    ensures v != Null ==> v == Str(inputs.inputPaths[name])
  {
    if name in inputs.inputPaths then Str(inputs.inputPaths[name]) else Null
  }

  // ---------------------------------------------------------------------------------------------
  // The argument list

  const Executable := "/usr/local/miniconda/bin/aslprep"

  /** The fifteen mandatory arguments, in order. */
  function MandatoryArgs(config: Config, inputs: GearInputs): (args: seq<Value>)
    ensures |args| == 15
    ensures args[0] == Str(Executable) && args[6] == Str("participant")
    ensures args[8] == InputPath(inputs, "freesurfer_license") && args[12] == Get(config, "output_spaces")
    ensures forall i :: 0 <= i < 15 && i != 8 && i != 12 ==> args[i].Str?
  {
    [Str(Executable), Str("--stop-on-first-crash"), Str("-v"), Str("-v"),
     Str(inputs.bidsRoot), Str(inputs.outputRoot), Str("participant"),
     Str("--fs-license-file"), InputPath(inputs, "freesurfer_license"),
     Str("-w"), Str(inputs.workingDir),
     Str("--output-spaces"), Get(config, "output_spaces"),
     Str("--run-uuid"), Str(inputs.analysisId)]
  }

  /** How one optional setting turns into arguments. */
  datatype OptionKind =
    | FromInput         // an input path: the flag and the path, when the path is truthy
    | Switch            // a flag alone, when the setting is truthy
    | Passed            // the flag and the raw setting, when it is truthy
    | Stringified       // the flag and `str(setting)`, when it is truthy
    | UnlessNoneString  // the flag and the raw setting, unless it equals the string 'None'
    | ThreadCount       // the flag and a thread count derived from an SGE cpu range, when truthy

  /** One optional setting: how it is used, the config key or input name it reads, and its flag. */
  datatype OptionSpec = OptionSpec(kind: OptionKind, key: string, flag: string)

  /** The optional settings in the order `write_aslprep_command` tests them. */
  const OptionTable: seq<OptionSpec> := [
    OptionSpec(FromInput, "freesurfer_input", "--fs-subjects-dir"),
    OptionSpec(FromInput, "bids_filter_file", "--bids-filter-file"),
    OptionSpec(Switch, "skip_bids_validation", "--skip-bids-validation"),
    OptionSpec(Passed, "task_id", "--task-id"),
    OptionSpec(Switch, "anat_only", "--anat-only"),
    OptionSpec(Passed, "ignore", "--ignore"),
    OptionSpec(Switch, "longitudinal", "--longitudinal"),
    OptionSpec(Stringified, "bold2t1w_dof", "--bold2t1w-dof"),
    OptionSpec(Switch, "force_bbr", "--force-bbr"),
    OptionSpec(Switch, "force_no_bbr", "--force-no-bbr"),
    OptionSpec(Stringified, "dummy_scans", "--dummy-scans"),
    OptionSpec(Stringified, "dummy_vols", "--dummy-vols"),
    OptionSpec(Stringified, "smooth_kernel", "--smooth_kernel"),
    OptionSpec(Switch, "skull_strip_fixed_seed", "--skull-strip-fixed-seed"),
    OptionSpec(Passed, "skull_strip_template", "--skull-strip-template"),
    OptionSpec(Switch, "fmap_bspline", "--fmap-bspline"),
    OptionSpec(Switch, "fmap_no_demean", "--fmap-no-demean"),
    OptionSpec(Switch, "force_syn", "--force-syn"),
    OptionSpec(Switch, "use_syn_sdc", "--use-syn-sdc"),
    OptionSpec(Switch, "fs_no_reconall", "--fs-no-reconall"),
    OptionSpec(UnlessNoneString, "cifti_output", "--cifti-output"),
    OptionSpec(Switch, "no_submm_recon", "--no-submm-recon"),
    OptionSpec(Switch, "medial_surface_nan", "--medial-surface-nan"),
    OptionSpec(ThreadCount, "sge-cpu", "--nthreads"),
    OptionSpec(Switch, "notrack", "--notrack"),
    OptionSpec(Switch, "sloppy", "--sloppy")
  ]

  /**
   * The shape of the table: 26 options; only the first two read input paths; `cifti_output` is
   * the only one whose guard tests for the string 'None'; and `sge-cpu` is the only thread count.
   */
  lemma OptionTableLayout()
    ensures |OptionTable| == 26
    ensures forall k :: 0 <= k < 26 ==> (OptionTable[k].kind == FromInput <==> k < 2)
    ensures forall k :: 0 <= k < 26 ==> (OptionTable[k].kind == UnlessNoneString <==> k == 20)
    ensures OptionTable[20].key == "cifti_output"
    ensures forall k :: 0 <= k < 26 ==> (OptionTable[k].kind == ThreadCount <==> k == 23)
    ensures OptionTable[23].key == "sge-cpu"
  {
  }

  /** The setting an option reads: an input path or a config value. */
  function Setting(spec: OptionSpec, config: Config, inputs: GearInputs): Value
  {
    if spec.kind == FromInput then InputPath(inputs, spec.key) else Get(config, spec.key)
  }

  /**
   * Whether the option's guard holds: the setting is truthy, except for `cifti_output`, whose guard
   * only rejects the string 'None' and so also holds when the setting is absent.
   */
  predicate Enabled(spec: OptionSpec, config: Config, inputs: GearInputs)
    ensures spec.kind != UnlessNoneString ==> (Enabled(spec, config, inputs) <==> Truthy(Setting(spec, config, inputs)))
    ensures spec.kind != UnlessNoneString && Enabled(spec, config, inputs) ==> Setting(spec, config, inputs) != Null
    ensures spec.kind == UnlessNoneString && Setting(spec, config, inputs) == Null ==> Enabled(spec, config, inputs)
    ensures spec.kind == UnlessNoneString && !Enabled(spec, config, inputs) ==> Setting(spec, config, inputs) == Str("None")
  {
    var v := Setting(spec, config, inputs);
    if spec.kind == UnlessNoneString then v != Str("None") else Truthy(v)
  }

  /** Number of arguments that follow the option's flag. */
  function ValueCount(kind: OptionKind): nat
  {
    if kind == Switch then 0 else 1
  }

  /** `max(1, cpuMin - 1)`, where `cpuMin` is the first '-'-separated field of the SGE cpu range. */
  function NThreads(sgeCpu: string): (n: int)
    ensures n >= 1
    ensures n >= DecimalValue(Split(sgeCpu, '-')[0]) - 1
    ensures n == 1 || n == DecimalValue(Split(sgeCpu, '-')[0]) - 1
  {
    var cpuMin := DecimalValue(Split(sgeCpu, '-')[0]);
    if cpuMin - 1 > 1 then cpuMin - 1 else 1
  }

  /** The arguments after the flag of an enabled option. */
  function OptionValues(spec: OptionSpec, config: Config, inputs: GearInputs): (vs: seq<Value>)
    ensures |vs| == ValueCount(spec.kind)
  {
    var v := Setting(spec, config, inputs);
    match spec.kind
    case Switch => []
    case Stringified => [Str(PyStr(v))]
    case ThreadCount => [Str(IntToString(NThreads(if v.Str? then v.s else "")))]
    case _ => [v]
  }

  /** What one `if` of `write_aslprep_command` appends. */
  function Segment(spec: OptionSpec, config: Config, inputs: GearInputs): seq<Value>
  {
    if Enabled(spec, config, inputs) then [Str(spec.flag)] + OptionValues(spec, config, inputs) else []
  }

  /** What the `if`s for `specs` append, one after the other: at most a flag and one value each. */
  function OptionalArgs(specs: seq<OptionSpec>, config: Config, inputs: GearInputs): (r: seq<Value>)
    ensures |r| <= 2 * |specs|
    decreases |specs|
  {
    if |specs| == 0 then [] else Segment(specs[0], config, inputs) + OptionalArgs(specs[1..], config, inputs)
  }

  /** One more `if` after those for `specs` appends its own segment at the end. */
  lemma {:induction false} OptionalArgsSnoc(specs: seq<OptionSpec>, s: OptionSpec, config: Config, inputs: GearInputs)
    ensures OptionalArgs(specs + [s], config, inputs) == OptionalArgs(specs, config, inputs) + Segment(s, config, inputs)
    decreases |specs|
  {
    if |specs| > 0 {
      assert (specs + [s])[1..] == specs[1..] + [s];
      OptionalArgsSnoc(specs[1..], s, config, inputs);
    }
  }

  /**
   * The whole argument list, when the thread count can be parsed: the mandatory arguments, then the
   * optional ones in table order, at most two for each option.
   */
  function Command(config: Config, inputs: GearInputs): (c: seq<Value>)
    ensures 15 <= |c| <= 15 + 2 * |OptionTable|
    ensures c[..15] == MandatoryArgs(config, inputs)
  {
    MandatoryArgs(config, inputs) + OptionalArgs(OptionTable, config, inputs)
  }

  /**
   * `int(config.get('sge-cpu').split('-')[0])` succeeds, or is not reached: the setting is falsy, or
   * it is a string whose first '-'-separated field is decimal digits. Otherwise `split` or `int()`
   * raises.
   */
  predicate SgeCpuWellFormed(config: Config)
  {
    var v := Get(config, "sge-cpu");
    Truthy(v) ==> v.Str? && |Split(v.s, '-')[0]| > 0 && IsDigits(Split(v.s, '-')[0])
  }

  lemma Assoc(a: seq<Value>, b: seq<Value>, c: seq<Value>)
    ensures (a + b) + c == a + (b + c)
  {
  }

  /**
   * One guarded step of `write_aslprep_command`: when the option's guard holds, its flag and the
   * values it takes are appended to `cmd`. The ghost `done` lists the options handled so far.
   */
  method AppendOption(cmd: seq<Value>, spec: OptionSpec, config: Config, inputs: GearInputs,
                      ghost base: seq<Value>, ghost done: seq<OptionSpec>)
    returns (cmd': seq<Value>, ghost done': seq<OptionSpec>)
    requires cmd == base + OptionalArgs(done, config, inputs)
    ensures cmd' == cmd + Segment(spec, config, inputs)
    ensures done' == done + [spec]
    ensures cmd' == base + OptionalArgs(done', config, inputs)
  {
    cmd' := cmd;
    if Enabled(spec, config, inputs) {
      cmd' := cmd' + [Str(spec.flag)] + OptionValues(spec, config, inputs);
    }
    done' := done + [spec];
    OptionalArgsSnoc(done, spec, config, inputs);
    Assoc(base, OptionalArgs(done, config, inputs), Segment(spec, config, inputs));
  }

  /**
   * The options handled one by one make up the table. The chain in the requires lists, entry by
   * entry, the `AppendOption` steps of `BuildCommand`, written out as the steps leave them.
   */
  lemma AllOptionsHandled(config: Config, inputs: GearInputs, cmd: seq<Value>, done: seq<OptionSpec>)
    requires done == [] + [OptionSpec(FromInput, "freesurfer_input", "--fs-subjects-dir")]
        + [OptionSpec(FromInput, "bids_filter_file", "--bids-filter-file")]
        + [OptionSpec(Switch, "skip_bids_validation", "--skip-bids-validation")]
        + [OptionSpec(Passed, "task_id", "--task-id")]
        + [OptionSpec(Switch, "anat_only", "--anat-only")]
        + [OptionSpec(Passed, "ignore", "--ignore")]
        + [OptionSpec(Switch, "longitudinal", "--longitudinal")]
        + [OptionSpec(Stringified, "bold2t1w_dof", "--bold2t1w-dof")]
        + [OptionSpec(Switch, "force_bbr", "--force-bbr")]
        + [OptionSpec(Switch, "force_no_bbr", "--force-no-bbr")]
        + [OptionSpec(Stringified, "dummy_scans", "--dummy-scans")]
        + [OptionSpec(Stringified, "dummy_vols", "--dummy-vols")]
        + [OptionSpec(Stringified, "smooth_kernel", "--smooth_kernel")]
        + [OptionSpec(Switch, "skull_strip_fixed_seed", "--skull-strip-fixed-seed")]
        + [OptionSpec(Passed, "skull_strip_template", "--skull-strip-template")]
        + [OptionSpec(Switch, "fmap_bspline", "--fmap-bspline")]
        + [OptionSpec(Switch, "fmap_no_demean", "--fmap-no-demean")]
        + [OptionSpec(Switch, "force_syn", "--force-syn")]
        + [OptionSpec(Switch, "use_syn_sdc", "--use-syn-sdc")]
        + [OptionSpec(Switch, "fs_no_reconall", "--fs-no-reconall")]
        + [OptionSpec(UnlessNoneString, "cifti_output", "--cifti-output")]
        + [OptionSpec(Switch, "no_submm_recon", "--no-submm-recon")]
        + [OptionSpec(Switch, "medial_surface_nan", "--medial-surface-nan")]
        + [OptionSpec(ThreadCount, "sge-cpu", "--nthreads")]
        + [OptionSpec(Switch, "notrack", "--notrack")]
        + [OptionSpec(Switch, "sloppy", "--sloppy")]
    requires cmd == MandatoryArgs(config, inputs) + OptionalArgs(done, config, inputs)
    ensures cmd == Command(config, inputs)
  {
    HandledOrderIsTable();
  }

  /**
   * The sequence of `AppendOption` steps of `BuildCommand`, as the steps build it one entry at a
   * time, is `OptionTable`: the steps follow the table in order.
   */
  lemma HandledOrderIsTable()
    ensures [] + [OptionSpec(FromInput, "freesurfer_input", "--fs-subjects-dir")]
        + [OptionSpec(FromInput, "bids_filter_file", "--bids-filter-file")]
        + [OptionSpec(Switch, "skip_bids_validation", "--skip-bids-validation")]
        + [OptionSpec(Passed, "task_id", "--task-id")]
        + [OptionSpec(Switch, "anat_only", "--anat-only")]
        + [OptionSpec(Passed, "ignore", "--ignore")]
        + [OptionSpec(Switch, "longitudinal", "--longitudinal")]
        + [OptionSpec(Stringified, "bold2t1w_dof", "--bold2t1w-dof")]
        + [OptionSpec(Switch, "force_bbr", "--force-bbr")]
        + [OptionSpec(Switch, "force_no_bbr", "--force-no-bbr")]
        + [OptionSpec(Stringified, "dummy_scans", "--dummy-scans")]
        + [OptionSpec(Stringified, "dummy_vols", "--dummy-vols")]
        + [OptionSpec(Stringified, "smooth_kernel", "--smooth_kernel")]
        + [OptionSpec(Switch, "skull_strip_fixed_seed", "--skull-strip-fixed-seed")]
        + [OptionSpec(Passed, "skull_strip_template", "--skull-strip-template")]
        + [OptionSpec(Switch, "fmap_bspline", "--fmap-bspline")]
        + [OptionSpec(Switch, "fmap_no_demean", "--fmap-no-demean")]
        + [OptionSpec(Switch, "force_syn", "--force-syn")]
        + [OptionSpec(Switch, "use_syn_sdc", "--use-syn-sdc")]
        + [OptionSpec(Switch, "fs_no_reconall", "--fs-no-reconall")]
        + [OptionSpec(UnlessNoneString, "cifti_output", "--cifti-output")]
        + [OptionSpec(Switch, "no_submm_recon", "--no-submm-recon")]
        + [OptionSpec(Switch, "medial_surface_nan", "--medial-surface-nan")]
        + [OptionSpec(ThreadCount, "sge-cpu", "--nthreads")]
        + [OptionSpec(Switch, "notrack", "--notrack")]
        + [OptionSpec(Switch, "sloppy", "--sloppy")]
         == OptionTable
  {
  }

  // ---------------------------------------------------------------------------------------------
  // The script

  /** `' '.join(cmd)`: the arguments separated by single spaces, or `None` when one is not a string (a `TypeError`). */
  function JoinArgs(cmd: seq<Value>): (r: Option<string>)
    ensures r.None? <==> exists i :: 0 <= i < |cmd| && !cmd[i].Str?
    ensures r.Some? ==> r.value == Join(" ", ArgStrings(cmd))
  {
    if forall i :: 0 <= i < |cmd| ==> cmd[i].Str? then Some(Join(" ", ArgStrings(cmd))) else None
  }

  /** The texts of the string arguments. */
  function ArgStrings(cmd: seq<Value>): (ss: seq<string>)
    ensures |ss| == |cmd|
    ensures forall i :: 0 <= i < |cmd| && cmd[i].Str? ==> ss[i] == cmd[i].s
  {
    seq(|cmd|, i requires 0 <= i < |cmd| => if cmd[i].Str? then cmd[i].s else "")
  }

  /** How a stage ended: it returned a boolean, or it raised an exception. */
  datatype StageOutcome = Returned(ok: bool) | Raised

  /**
   * The outcome of `write_aslprep_command`: it raises when the thread count cannot be parsed or
   * when the join meets a non-string, and otherwise returns whether the script exists.
   */
  function CommandStage(config: Config, inputs: GearInputs, scriptExists: bool): (r: StageOutcome)
    ensures r == Raised
        <==> (!SgeCpuWellFormed(config) || exists i :: 0 <= i < |Command(config, inputs)| && !Command(config, inputs)[i].Str?)
    ensures r != Raised ==> r == Returned(scriptExists)
  {
    if !SgeCpuWellFormed(config) then Raised
    else if JoinArgs(Command(config, inputs)).None? then Raised
    else Returned(scriptExists)
  }

  /**
   * Lines 54-135 of `write_aslprep_command`: the mandatory arguments, then one guarded step per
   * optional setting, in the source's order. `None` stands for the exception the thread-count
   * step raises on a malformed `sge-cpu`.
   */
  method BuildCommand(config: Config, inputs: GearInputs) returns (r: Option<seq<Value>>)
    ensures r.None? <==> !SgeCpuWellFormed(config)
    ensures r.Some? ==> r.value == Command(config, inputs)
  {
    // Mandatory arguments
    var cmd := MandatoryArgs(config, inputs);
    ghost var base := cmd;
    ghost var done: seq<OptionSpec> := [];

    // External FreeSurfer Input
    cmd, done := AppendOption(cmd, OptionSpec(FromInput, "freesurfer_input", "--fs-subjects-dir"), config, inputs, base, done);

    // JSON file that contains a file filter
    cmd, done := AppendOption(cmd, OptionSpec(FromInput, "bids_filter_file", "--bids-filter-file"), config, inputs, base, done);
    cmd, done := AppendOption(cmd, OptionSpec(Switch, "skip_bids_validation", "--skip-bids-validation"), config, inputs, base, done);
    cmd, done := AppendOption(cmd, OptionSpec(Passed, "task_id", "--task-id"), config, inputs, base, done);
    cmd, done := AppendOption(cmd, OptionSpec(Switch, "anat_only", "--anat-only"), config, inputs, base, done);
    cmd, done := AppendOption(cmd, OptionSpec(Passed, "ignore", "--ignore"), config, inputs, base, done);
    cmd, done := AppendOption(cmd, OptionSpec(Switch, "longitudinal", "--longitudinal"), config, inputs, base, done);
    cmd, done := AppendOption(cmd, OptionSpec(Stringified, "bold2t1w_dof", "--bold2t1w-dof"), config, inputs, base, done);
    cmd, done := AppendOption(cmd, OptionSpec(Switch, "force_bbr", "--force-bbr"), config, inputs, base, done);
    cmd, done := AppendOption(cmd, OptionSpec(Switch, "force_no_bbr", "--force-no-bbr"), config, inputs, base, done);
    cmd, done := AppendOption(cmd, OptionSpec(Stringified, "dummy_scans", "--dummy-scans"), config, inputs, base, done);
    cmd, done := AppendOption(cmd, OptionSpec(Stringified, "dummy_vols", "--dummy-vols"), config, inputs, base, done);
    cmd, done := AppendOption(cmd, OptionSpec(Stringified, "smooth_kernel", "--smooth_kernel"), config, inputs, base, done);

    // Specific options for ANTs registrations
    cmd, done := AppendOption(cmd, OptionSpec(Switch, "skull_strip_fixed_seed", "--skull-strip-fixed-seed"), config, inputs, base, done);
    cmd, done := AppendOption(cmd, OptionSpec(Passed, "skull_strip_template", "--skull-strip-template"), config, inputs, base, done);

    // Fieldmap options
    cmd, done := AppendOption(cmd, OptionSpec(Switch, "fmap_bspline", "--fmap-bspline"), config, inputs, base, done);
    cmd, done := AppendOption(cmd, OptionSpec(Switch, "fmap_no_demean", "--fmap-no-demean"), config, inputs, base, done);

    // Specific options for SyN distortion correction
    cmd, done := AppendOption(cmd, OptionSpec(Switch, "force_syn", "--force-syn"), config, inputs, base, done);
    cmd, done := AppendOption(cmd, OptionSpec(Switch, "use_syn_sdc", "--use-syn-sdc"), config, inputs, base, done);

    // Surface preprocessing options
    cmd, done := AppendOption(cmd, OptionSpec(Switch, "fs_no_reconall", "--fs-no-reconall"), config, inputs, base, done);
    cmd, done := AppendOption(cmd, OptionSpec(UnlessNoneString, "cifti_output", "--cifti-output"), config, inputs, base, done);
    cmd, done := AppendOption(cmd, OptionSpec(Switch, "no_submm_recon", "--no-submm-recon"), config, inputs, base, done);
    cmd, done := AppendOption(cmd, OptionSpec(Switch, "medial_surface_nan", "--medial-surface-nan"), config, inputs, base, done);

    // If on HPC, get the cores/memory limits; `split` or `int()` raises on a malformed range
    if !SgeCpuWellFormed(config) {
      return None;
    }
    cmd, done := AppendOption(cmd, OptionSpec(ThreadCount, "sge-cpu", "--nthreads"), config, inputs, base, done);
    cmd, done := AppendOption(cmd, OptionSpec(Switch, "notrack", "--notrack"), config, inputs, base, done);
    cmd, done := AppendOption(cmd, OptionSpec(Switch, "sloppy", "--sloppy"), config, inputs, base, done);
    AllOptionsHandled(config, inputs, cmd, done);
    r := Some(cmd);
  }

  /**
   * `write_aslprep_command`: builds the argument list, then joins it by spaces into the script
   * text; `scriptExists` stands for `aslprep_script.exists()` after the write.
   */
  method WriteAslprepCommand(config: Config, inputs: GearInputs, scriptExists: bool)
    returns (cmd: Option<seq<Value>>, script: Option<string>, outcome: StageOutcome)
    ensures cmd.Some? <==> SgeCpuWellFormed(config)
    ensures cmd.Some? ==> cmd.value == Command(config, inputs) && script == JoinArgs(cmd.value)
    ensures cmd.None? ==> script.None?
    ensures outcome == CommandStage(config, inputs, scriptExists)
  {
    cmd := BuildCommand(config, inputs);
    if cmd.None? {
      return None, None, Raised;
    }
    script := JoinArgs(cmd.value);
    if script.None? {
      outcome := Raised;
    } else {
      outcome := Returned(scriptExists);
    }
  }

  // ---------------------------------------------------------------------------------------------
  // Reading the optional arguments back

  /** What each option should contribute: its values when its guard holds, nothing otherwise. */
  function Present(specs: seq<OptionSpec>, config: Config, inputs: GearInputs): (r: seq<Option<seq<Value>>>)
    ensures |r| == |specs|
  {
    seq(|specs|, k requires 0 <= k < |specs| =>
      if Enabled(specs[k], config, inputs) then Some(OptionValues(specs[k], config, inputs)) else None)
  }

  /**
   * Reads an argument list against `specs` in order: an option is present when the next argument
   * is its flag, and then the following `ValueCount` arguments are its values.
   */
  function Decode(specs: seq<OptionSpec>, args: seq<Value>): (r: Option<seq<Option<seq<Value>>>>)
    ensures r.Some? ==> |r.value| == |specs|
    decreases |specs|
  {
    if |specs| == 0 then
      if |args| == 0 then Some([]) else None
    else if |args| > 0 && args[0] == Str(specs[0].flag) then
      var n := 1 + ValueCount(specs[0].kind);
      if |args| < n then None
      else
        var rest := Decode(specs[1..], args[n..]);
        if rest.None? then None else Some([Some(args[1..n])] + rest.value)
    else
      var rest := Decode(specs[1..], args);
      if rest.None? then None else Some([None] + rest.value)
  }

  predicate FlagsDistinct(specs: seq<OptionSpec>)
  {
    forall i, j :: 0 <= i < j < |specs| ==> specs[i].flag != specs[j].flag
  }

  /** A non-empty run of optional arguments starts with the flag of one of its enabled options. */
  lemma {:induction false} HeadIsFlag(specs: seq<OptionSpec>, config: Config, inputs: GearInputs)
    ensures var args := OptionalArgs(specs, config, inputs);
      args == [] || exists j :: 0 <= j < |specs| && Enabled(specs[j], config, inputs) && args[0] == Str(specs[j].flag)
    decreases |specs|
  {
    if |specs| > 0 && !Enabled(specs[0], config, inputs) {
      HeadIsFlag(specs[1..], config, inputs);
      var args := OptionalArgs(specs[1..], config, inputs);
      if args != [] {
        var j :| 0 <= j < |specs[1..]| && Enabled(specs[1..][j], config, inputs) && args[0] == Str(specs[1..][j].flag);
        assert specs[j + 1] == specs[1..][j];
      }
    }
  }

  lemma FlagsDistinctTail(specs: seq<OptionSpec>)
    requires |specs| > 0 && FlagsDistinct(specs)
    ensures FlagsDistinct(specs[1..])
  {
    forall i, j | 0 <= i < j < |specs[1..]|
      ensures specs[1..][i].flag != specs[1..][j].flag
    {
      assert specs[1..][i] == specs[i + 1] && specs[1..][j] == specs[j + 1];
    }
  }

  /** The expected reading of `specs` is that of its first option, then that of the rest. */
  lemma PresentCons(specs: seq<OptionSpec>, config: Config, inputs: GearInputs)
    requires |specs| > 0
    ensures Present(specs, config, inputs)
         == [if Enabled(specs[0], config, inputs) then Some(OptionValues(specs[0], config, inputs)) else None]
          + Present(specs[1..], config, inputs)
  {
  }

  /** With distinct flags, the arguments of the later options do not start with the first option's flag. */
  lemma RestDoesNotStartWithFlag(specs: seq<OptionSpec>, config: Config, inputs: GearInputs)
    requires |specs| > 0 && FlagsDistinct(specs)
    ensures var rest := OptionalArgs(specs[1..], config, inputs);
      rest == [] || rest[0] != Str(specs[0].flag)
  {
    var rest := OptionalArgs(specs[1..], config, inputs);
    HeadIsFlag(specs[1..], config, inputs);
    if rest != [] {
      var j :| 0 <= j < |specs[1..]| && Enabled(specs[1..][j], config, inputs) && rest[0] == Str(specs[1..][j].flag);
      assert specs[1..][j] == specs[j + 1];
    }
  }

  /** A flag, its values and what follows can be cut apart again. */
  lemma CutAfterValues(flag: Value, vals: seq<Value>, rest: seq<Value>)
    ensures var args := [flag] + vals + rest;
      args[0] == flag && args[1..1 + |vals|] == vals && args[1 + |vals|..] == rest
  {
  }

  /** Reading an enabled first option: its flag, its values, then the rest. */
  lemma DecodeEnabledHead(specs: seq<OptionSpec>, config: Config, inputs: GearInputs)
    requires |specs| > 0 && Enabled(specs[0], config, inputs)
    requires Decode(specs[1..], OptionalArgs(specs[1..], config, inputs)) == Some(Present(specs[1..], config, inputs))
    ensures Decode(specs, OptionalArgs(specs, config, inputs)) == Some(Present(specs, config, inputs))
  {
    var vals := OptionValues(specs[0], config, inputs);
    CutAfterValues(Str(specs[0].flag), vals, OptionalArgs(specs[1..], config, inputs));
    PresentCons(specs, config, inputs);
  }

  /** Reading a disabled first option: it is absent, and the rest is read from the same arguments. */
  lemma DecodeDisabledHead(specs: seq<OptionSpec>, config: Config, inputs: GearInputs)
    requires |specs| > 0 && !Enabled(specs[0], config, inputs) && FlagsDistinct(specs)
    requires Decode(specs[1..], OptionalArgs(specs[1..], config, inputs)) == Some(Present(specs[1..], config, inputs))
    ensures Decode(specs, OptionalArgs(specs, config, inputs)) == Some(Present(specs, config, inputs))
  {
    assert OptionalArgs(specs, config, inputs) == OptionalArgs(specs[1..], config, inputs);
    RestDoesNotStartWithFlag(specs, config, inputs);
    PresentCons(specs, config, inputs);
  }

  /**
   * With distinct flags, reading back the optional arguments recovers, option by option and in
   * order, exactly the enabled options and the values that follow their flags.
   */
  lemma {:induction false} DecodeOptionalArgs(specs: seq<OptionSpec>, config: Config, inputs: GearInputs)
    requires FlagsDistinct(specs)
    ensures Decode(specs, OptionalArgs(specs, config, inputs)) == Some(Present(specs, config, inputs))
    decreases |specs|
  {
    if |specs| > 0 {
      FlagsDistinctTail(specs);
      DecodeOptionalArgs(specs[1..], config, inputs);
      if Enabled(specs[0], config, inputs) {
        DecodeEnabledHead(specs, config, inputs);
      } else {
        DecodeDisabledHead(specs, config, inputs);
      }
    }
  }

  lemma FlagsDistinctBefore9()
    ensures forall i, j :: 0 <= i < j < 9 ==> OptionTable[i].flag != OptionTable[j].flag
  {
  }

  lemma FlagsDistinctBefore18()
    ensures forall i, j :: 0 <= i < j && 9 <= j < 18 ==> OptionTable[i].flag != OptionTable[j].flag
  {
  }

  lemma FlagsDistinctBefore26()
    ensures forall i, j :: 0 <= i < j && 18 <= j < 26 ==> OptionTable[i].flag != OptionTable[j].flag
  {
  }

  /** No two options of the table share a flag. */
  lemma TableFlagsDistinct()
    ensures FlagsDistinct(OptionTable)
  {
    FlagsDistinctBefore9();
    FlagsDistinctBefore18();
    FlagsDistinctBefore26();
  }

  /**
   * The argument list is the fifteen mandatory arguments, unchanged, followed by exactly the
   * enabled options in table order, each flag followed by its values.
   */
  lemma CommandLayout(config: Config, inputs: GearInputs)
    ensures |Command(config, inputs)| >= 15
    ensures Command(config, inputs)[..15] == MandatoryArgs(config, inputs)
    ensures Decode(OptionTable, Command(config, inputs)[15..]) == Some(Present(OptionTable, config, inputs))
  {
    var m := MandatoryArgs(config, inputs);
    var opt := OptionalArgs(OptionTable, config, inputs);
    assert (m + opt)[..15] == m;
    assert (m + opt)[15..] == opt;
    TableFlagsDistinct();
    DecodeOptionalArgs(OptionTable, config, inputs);
  }

  /** Every argument an option contributes appears in the list of optional arguments. */
  lemma {:induction false} SegmentOccurs(specs: seq<OptionSpec>, k: nat, config: Config, inputs: GearInputs)
    requires k < |specs|
    ensures forall v :: v in Segment(specs[k], config, inputs) ==> v in OptionalArgs(specs, config, inputs)
    decreases k
  {
    if k > 0 {
      SegmentOccurs(specs[1..], k - 1, config, inputs);
      assert specs[1..][k - 1] == specs[k];
    }
  }

  /**
   * An absent `cifti_output` is not the string 'None', so `--cifti-output` is followed by `None`;
   * joining the list then fails and the command stage raises.
   */
  lemma CiftiAbsentRaises(config: Config, inputs: GearInputs, scriptExists: bool)
    requires "cifti_output" !in config
    ensures Null in Command(config, inputs)
    ensures JoinArgs(Command(config, inputs)).None?
    ensures CommandStage(config, inputs, scriptExists) == Raised
  {
    CiftiAbsentAppendsNull(config, inputs);
    var c := Command(config, inputs);
    assert Null in c;
    var i :| 0 <= i < |c| && c[i] == Null;
    assert !c[i].Str?;
  }

  lemma CiftiAbsentAppendsNull(config: Config, inputs: GearInputs)
    requires "cifti_output" !in config
    ensures Null in OptionalArgs(OptionTable, config, inputs)
  {
    var t := OptionTable;
    assert t[20] == OptionSpec(UnlessNoneString, "cifti_output", "--cifti-output");
    assert Null in Segment(t[20], config, inputs);
    SegmentOccurs(t, 20, config, inputs);
  }

  /**
   * The thread count can be parsed from "4-8" and from an absent setting, not from "abc" (`int()`
   * raises) nor from the integer 4 (it has no `split`); with those the command stage raises.
   */
  lemma SgeCpuExamples(inputs: GearInputs, scriptExists: bool)
    ensures SgeCpuWellFormed(map["sge-cpu" := Str("4-8")])
    ensures SgeCpuWellFormed(map[])
    ensures !SgeCpuWellFormed(map["sge-cpu" := Str("abc")])
    ensures !SgeCpuWellFormed(map["sge-cpu" := Int(4)])
    ensures CommandStage(map["sge-cpu" := Str("abc")], inputs, scriptExists) == Raised
  {
    assert "4-8" == "4" + "-" + "8";
    SplitAfterPiece("4", '-', "8");
    SplitWithoutSeparator("abc", '-');
    assert !IsDigit("abc"[0]);
  }

  /** `"4-8"` gives three threads, `"1"` and `"2"` give one, `"16"` gives fifteen. */
  lemma NThreadsExamples()
    ensures NThreads("4-8") == 3
    ensures NThreads("1") == 1
    ensures NThreads("2") == 1
    ensures NThreads("16") == 15
  {
    assert "4-8" == "4" + "-" + "8";
    SplitAfterPiece("4", '-', "8");
    SplitWithoutSeparator("1", '-');
    SplitWithoutSeparator("2", '-');
    SplitWithoutSeparator("16", '-');
  }

  /** When every argument is a string without a space, splitting the script on spaces gives the arguments back. */
  lemma ScriptSplitsBack(cmd: seq<Value>)
    requires |cmd| >= 1
    requires forall i :: 0 <= i < |cmd| ==> cmd[i].Str? && ' ' !in cmd[i].s
    ensures JoinArgs(cmd).Some?
    ensures Split(JoinArgs(cmd).value, ' ') == ArgStrings(cmd)
  {
    var parts := ArgStrings(cmd);
    assert forall k :: 0 <= k < |parts| ==> parts[k] == cmd[k].s;
    assert " " == [' '];
    SplitJoin(parts, ' ');
  }

  // ---------------------------------------------------------------------------------------------
  // main

  /** How the process ends: `sys.exit` with `main`'s return value, or an uncaught exception. */
  datatype ExitStatus = ExitCode(code: int) | Uncaught

  /**
   * How `main` ends, given how its two stages end: stage 2 runs only when stage 1 returned true; a
   * false return gives exit code 1, an exception ends the process uncaught, and 0 means both
   * stages returned true.
   */
  function MainStatus(download: StageOutcome, command: StageOutcome): (status: ExitStatus)
    ensures status == ExitCode(0) <==> download == Returned(true) && command == Returned(true)
    ensures status == ExitCode(1)
        <==> download == Returned(false) || (download == Returned(true) && command == Returned(false))
    ensures status == Uncaught <==> download == Raised || (download == Returned(true) && command == Raised)
  {
    match download
    case Raised => Uncaught
    case Returned(false) => ExitCode(1)
    case Returned(true) =>
      match command
      case Raised => Uncaught
      case Returned(ok) => if ok then ExitCode(0) else ExitCode(1)
  }

  /**
   * `main`: stage 1 (the BIDS download, given as its outcome `download`) and, only when it
   * returned true, stage 2 (`write_aslprep_command`).
   */
  method RunMain(download: StageOutcome, config: Config, inputs: GearInputs, scriptExists: bool)
    returns (status: ExitStatus, commandRan: bool)
    ensures commandRan <==> download == Returned(true)
    ensures status == MainStatus(download, CommandStage(config, inputs, scriptExists))
  {
    if download.Raised? {
      return Uncaught, false;
    }
    if !download.ok {
      return ExitCode(1), false;
    }
    var cmd, script, commandOk := WriteAslprepCommand(config, inputs, scriptExists);
    status := CommandExit(commandOk);
    commandRan := true;
  }

  /** The end of `main` once stage 2 has run: its exception propagates, false gives 1, true gives 0. */
  method CommandExit(commandOk: StageOutcome) returns (status: ExitStatus)
    ensures status == MainStatus(Returned(true), commandOk)
  {
    if commandOk.Raised? {
      return Uncaught;
    }
    if !commandOk.ok {
      return ExitCode(1);
    }
    return ExitCode(0);
  }
}
