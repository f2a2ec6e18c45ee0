# aslprep_fw: the series heuristic and the run-script builder

This project models the two pieces of logic in the Flywheel gear that wraps aslprep.

- **The heudiconv heuristic** (`debug/heuristics.py`). `infotodict` sorts the DICOM series of a
  session into twelve BIDS output keys. It uses one `if/elif` chain over four inputs:
  - the lower-cased protocol name,
  - the series description,
  - the image-type tags,
  - the derived flag, with a patient-id fallback.

  Small helpers sit next to it:
  - `create_key`, which builds the output keys,
  - `ReplaceSubject` and `ReplaceSession`, which normalise labels,
  - `AttachToSession`, which builds the ASL context file,
  - the `MetadataExtras` and `IntendedFor` tables.
- **The run script** (`prepare_run.py`). `write_aslprep_command` turns the gear configuration and
  the input paths into the aslprep argument list and joins it by spaces into the script. `main`
  runs the BIDS download stage and then the command stage, and returns 0 or 1.

Layout:
- `wrappers.dfy`: `Option` and `Result`.
- `strings.dfy`: the Python string operations the core uses:
  - `lower()` and the substring test `in`,
  - `endswith`, `lstrip`, `join` and `split`,
  - `int()` and `str()` on decimals.
- `heuristics.dfy`: the heuristic.
- `prepare_run.dfy`: the argument list, the script and `main`.

Design choices:
- `Classify` is the rule chain for one series, written as a function.
- `InfoToDict` is the `for` loop that appends to the dictionary's lists. It is a method with loop
  invariants, proved against the specification function `Bucket`.
- The rule table `Rules` and its first-match evaluation `FirstMatch` are an independent reference
  for the chain. A lemma ties the two together.
- `BuildCommand` keeps the source's order of guarded steps:
  - one `AppendOption` step per `if`, each appending the option's flag and values when its guard
    holds,
  - each step proved against the specification `Command`,
  - a reader, `Decode`, that reads the argument list back.
- Python values of the configuration are `Value`: a string, a boolean, an integer or `None`. A
  list that holds a non-string makes `' '.join` raise a `TypeError`. That is modelled, so an
  absent `cifti_output` makes the command stage raise, as the code does.
- The thread-count step raises on a truthy `sge-cpu` that is not a string whose first '-'-separated
  field is decimal digits. `BuildCommand` returns `None` there, and the command stage raises.
- The Flywheel context is replaced by parameters:
  - the BIDS, output and work directories, the analysis id, and the given input paths
    (`GearInputs`),
  - whether the script file exists after writing (`scriptExists`),
  - the outcome of the download stage (`download`).

## Model

| member | source | states |
|---|---|---|
| Heuristics.CreateKey | debug/heuristics.py:4-7 | A missing or empty template fails with the ValueError message. Any other template gives the triple as passed. The outtype defaults to `('nii.gz',)` and the annotation classes to `None`. |
| Heuristics.SubjectKey | debug/heuristics.py:10-41 | Each key template is the subject directory `sub-{subject}/` followed by the session-relative template, with the default outtype and no annotation classes. |
| Heuristics.KeyConstantsAreCreated | debug/heuristics.py:10-41 | Each of the twelve keys and `mean_perf` is exactly what `create_key` returns for its template with default arguments. |
| Heuristics.KeyConstantsDistinct | debug/heuristics.py:10-41 | The twelve keys and `mean_perf` are pairwise different. |
| Heuristics.KeyOrderDistinct | debug/heuristics.py:57-60 | The twelve keys of the dictionary literal are pairwise different. |
| Heuristics.InfoKeysAreKeyOrder | debug/heuristics.py:57-60 | The key set of the dictionary is exactly the keys listed in the literal. |
| Heuristics.MeanPerfIsNoInfoKey | debug/heuristics.py:40-41 | `mean_perf` is not a key of the dictionary `infotodict` returns. |
| Heuristics.InfoKeysCount | debug/heuristics.py:57-60 | The dictionary has exactly 12 keys. |
| Heuristics.DistinctElements | debug/heuristics.py:57-60 | A list without repetitions has as many distinct elements as entries. This is used to count the keys. |
| Heuristics.Classify | debug/heuristics.py:69-102 | The chain only ever chooses one of the twelve dictionary keys, or no key. |
| Heuristics.FirstMatchIff | debug/heuristics.py:70-102 | Reference semantics of an `if/elif` chain. Some result exists iff some rule fires. The result is the target of the first rule that fires. There is no result iff no rule fires. |
| Heuristics.FirstMatchSkip | debug/heuristics.py:70-102 | Rules before the first one that fires do not affect the result. |
| Heuristics.ClassifyIsFirstMatch | debug/heuristics.py:68-102 | For every series, the chain gives the first-match result of the twelve-rule table, in source order. |
| Heuristics.MiddleRulesAreFirstMatch | debug/heuristics.py:74-81 | Once the first four tests fail, the chain is the first match of the rules from `topup_ref` on. |
| Heuristics.DescriptionRulesAreFirstMatch | debug/heuristics.py:83-86 | Once the protocol tests up to `117dir` fail, the chain is the first match of the rules from the `_ASL` suffix on. |
| Heuristics.LaterRulesAreFirstMatch | debug/heuristics.py:88-102 | Once the description tests fail, the chain is the first match of the rules from `fracback` on. |
| Heuristics.FirstMatchUnfold | debug/heuristics.py:70-102 | The first match from rule k is rule k's target when it fires. Otherwise it is the first match from rule k+1. |
| Heuristics.FallsThrough | debug/heuristics.py:70-102 | If rules 0..i do not fire, the chain is decided by the rules after i. |
| Heuristics.MprageWins | debug/heuristics.py:70-71 | A protocol containing "mprage", in any case, goes to t1w whatever its other fields are. |
| Heuristics.B0mapWithoutMagnitudeOrPhaseFallsThrough | debug/heuristics.py:74-77 | A "b0map" protocol whose image type has neither "M" nor "P" is decided by the rules from `topup_ref` on, so it goes neither to b0_mag nor to b0_phase. It can still go to pe_rev, the third field-map key, when its protocol also contains "topup_ref". |
| Heuristics.DerivedDiffusionFallsThrough | debug/heuristics.py:80-81 | A derived series that the first five rules do not take is decided by the rules after the diffusion rule, and is not put in the dwi bucket. |
| Heuristics.DerivedNeverDwi | debug/heuristics.py:68-102 | A derived series is never put in the dwi bucket, whichever rule decides it: `117dir` is the only rule that targets dwi, and it requires a non-derived series. |
| Heuristics.RestSplitsOnMultiband | debug/heuristics.py:92-96 | A "rest" protocol that reaches this rule goes to rest_mb iff "MB" is an image-type tag, and to rest_sb otherwise. |
| Heuristics.PatientIdFallback | debug/heuristics.py:98-102 | A series no earlier rule takes goes to asl iff its patient id occurs in its DICOM directory name. Otherwise it goes nowhere. |
| Heuristics.ProtocolCaseInsensitive | debug/heuristics.py:69 | Two protocol names that lower-case alike classify alike. |
| Heuristics.AslProtocolFacts | debug/heuristics.py:70-92 | The protocol "asl" contains none of the protocol needles of the chain. |
| Heuristics.B0mapProtocolFacts | debug/heuristics.py:70-92 | The protocol "b0map" contains only the "b0map" needle. |
| Heuristics.RestProtocolFacts | debug/heuristics.py:70-92 | The protocol "rest" contains only the "rest" needle. |
| Heuristics.UpperCaseAslSuffixMatches | debug/heuristics.py:83-84 | A description ending in "_ASL" goes to asl. |
| Heuristics.LowerCaseAslSuffixDoesNotMatch | debug/heuristics.py:83-84 | A description ending in "_asl" does not match, because the suffix test is case-sensitive. |
| Heuristics.MagnitudeTagMatches | debug/heuristics.py:74-75 | A "B0map" protocol tagged "M" goes to the magnitude key. |
| Heuristics.LowerCaseMagnitudeTagDoesNotMatch | debug/heuristics.py:74-77 | The tag "m" is not "M", so that series matches no rule. |
| Heuristics.MultibandRestExample | debug/heuristics.py:92-94 | "Rest" tagged "MB" goes to rest_mb. |
| Heuristics.SinglebandRestExample | debug/heuristics.py:92-96 | "Rest" without the exact tag "MB" (none, or "mb") goes to rest_sb. |
| Heuristics.MprageExample | debug/heuristics.py:69-71 | The protocol "MPRAGE" goes to t1w. |
| Heuristics.InfoToDict | debug/heuristics.py:55-103 | The loop returns a map with exactly the twelve keys and without `mean_perf`. Each key holds the ids of the series the chain sends to it. |
| Heuristics.EmptyInputGivesEmptyBuckets | debug/heuristics.py:57-60 | An empty series list gives an empty list under every key. |
| Heuristics.BucketIsOrderedSelection | debug/heuristics.py:64-99 | Each bucket holds the ids of the series sent to that key, at strictly increasing input positions. A position is selected iff the chain sends that series to the key. |
| Heuristics.PlacedCountStep | debug/heuristics.py:68-102 | Adding one series to the input adds, to the total length of the buckets, the number of keys equal to that series' classification. |
| Heuristics.HitsOfDistinct | debug/heuristics.py:57-60 | Among distinct keys, a classification matches one key if it is one of them, and none otherwise. |
| Heuristics.BucketsHoldEachSeriesOnce | debug/heuristics.py:68-102 | The buckets hold, in all, one entry per recognised series. So their total length is at most the number of series. |
| Heuristics.EmptyPlaced | debug/heuristics.py:57-60 | The buckets of an empty input hold nothing. |
| Heuristics.MetadataExtrasKeys | debug/heuristics.py:105-167 | The extra-sidecar table `MetadataExtras` has three keys: b0_phase, asl and mean_perf, of which only mean_perf is no dictionary key. They carry 2, 28 and 29 field names. mean_perf has asl's fields plus MagneticFieldStrength. |
| Heuristics.SessionImage | debug/heuristics.py:169-181 | The name of a key's NIfTI image relative to the subject directory. With the subject directory in front, it is the template followed by ".nii.gz". |
| Heuristics.IntendedForAslEntryLacksExtension | debug/heuristics.py:169-181 | The table `IntendedForAsWritten`, as written. The four functional entries and the pe_rev entry name key images. The fifth b0_phase entry is the asl template without ".nii.gz". It is the image of no key, and no b0_phase entry is the asl image. |
| Heuristics.IntendedForNamesKeyImages | debug/heuristics.py:169-181 | In the corrected table `IntendedFor`, the keys are b0_phase, b0_mag and pe_rev, all dictionary keys. b0_phase is intended for the images of rest_mb, rest_sb, fracback, face and asl; b0_mag for none; pe_rev for the dwi image. |
| Heuristics.ReplaceSubject | debug/heuristics.py:185-186 | The result is the label without its leading '0' characters. It is a suffix, the removed prefix is all '0', and it does not start with '0'. |
| Heuristics.ReplaceSession | debug/heuristics.py:188-189 | The same zero-stripping as for subject labels. |
| Heuristics.ZeroStrippedIsLongest | debug/heuristics.py:185-189 | The zero-stripped label is the longest suffix not starting with '0', and the only zero-stripped form. |
| Heuristics.ReplaceSubjectIdempotent | debug/heuristics.py:185-186 | Stripping twice equals stripping once. A label without a leading zero is unchanged. |
| Heuristics.ReplaceSessionIsReplaceSubject | debug/heuristics.py:185-189 | Session and subject labels are normalised alike. |
| Heuristics.ReplaceSubjectExamples | debug/heuristics.py:185-186 | "007" gives "7", "0" gives "", and "123" is unchanged. |
| Heuristics.Repeat | debug/heuristics.py:195 | `xs * n` has n times as many elements as xs, and element i is element i mod the length of xs. |
| Heuristics.ModOfShift | debug/heuristics.py:195 | Proof helper for `Repeat`: adding whole periods does not change the position within the period. |
| Heuristics.ModPlusDivisor | debug/heuristics.py:195 | Proof helper for `ModOfShift`: (x + m) % m == x % m. |
| Heuristics.MultipleInsideDivisor | debug/heuristics.py:195 | Proof helper for `ModPlusDivisor`: the only multiple of m strictly between -m and m is 0. |
| Heuristics.ContextLinesAlternate | debug/heuristics.py:194-195 | `['control', 'label'] * 40` has 80 lines, alternating "control" and "label", and none holds a newline. |
| Heuristics.ContextNameSuffix | debug/heuristics.py:199 | Corrected name (see ## Findings): the asl template followed by "context.tsv" ends in "_aslcontext.tsv". |
| Heuristics.AttachToSession | debug/heuristics.py:192-204 | Corrected (see ## Findings). The data splits on newlines into exactly 80 lines, alternating "control" and "label" and starting with "control". The name is the corrected one: the asl template followed by "context.tsv", so it ends in "_aslcontext.tsv". Line 199 writes a different name, modelled by `AttachToSessionAsWritten`. The type is text/tab-separated-values. |
| Heuristics.AttachToSessionAsWritten | debug/heuristics.py:192-204 | The file as written has the same data and type as the corrected one. |
| Heuristics.AsWrittenContextNameLacksSubjectPrefix | debug/heuristics.py:199 | The name as written is the perf directory followed by `{subject}_{session}_task-rest_aslcontext.tsv`. That is not the asl image's context-file name. |
| Strings.LowerIdempotent | debug/heuristics.py:69 | Lower-casing twice is lower-casing once, and the result has no capital letter. |
| Strings.Lower | debug/heuristics.py:69 | `lower()` keeps the length, turns each capital A-Z into its small letter, and leaves every other character as it is. |
| Strings.ContainsIff | debug/heuristics.py:70-98 | Python's `needle in hay` holds iff the needle occurs at some position of hay. |
| Strings.AbsentByChar | debug/heuristics.py:70-98 | A needle with a character the text lacks does not occur in it. |
| Strings.AbsentByLength | debug/heuristics.py:70-98 | A needle longer than the text does not occur in it. |
| Strings.Contains | debug/heuristics.py:70-98 | `needle in hay` holds when hay starts with the needle, and only when the needle is no longer than hay. The full characterisation is `Strings.ContainsIff`. |
| Strings.EndsWith | debug/heuristics.py:83-86 | `s.endswith(suffix)` holds iff the suffix is no longer than s and s is its own front part followed by the suffix. |
| Strings.LStrip | debug/heuristics.py:186 | `lstrip(c)` returns a suffix of the text. The removed prefix is all c, and the result does not start with c. |
| Strings.Join | prepare_run.py:137-139 | `sep.join(parts)` of no parts is empty. Otherwise it starts with the first part and ends with the last. `Strings.SplitJoin` is its inverse. |
| Strings.Split | prepare_run.py:129 | `split` on one character always gives at least one piece. |
| Strings.SplitWithoutSeparator | prepare_run.py:129 | Text without the separator splits into itself alone. |
| Strings.SplitAfterPiece | prepare_run.py:129 | A piece followed by the separator splits off as the first piece. |
| Strings.SplitJoin | prepare_run.py:137-139 | Joining separator-free pieces and splitting again gives the pieces back. |
| Strings.DecimalValue | prepare_run.py:129 | `int()` of a string of n decimal digits is a natural number below 10 to the n. `Strings.DecimalValueOfNatToString` shows it inverts `str()`. |
| Strings.NatToString | prepare_run.py:130 | `str(n)` is a non-empty string of decimal digits without a leading zero. |
| Strings.DecimalValueOfNatToString | prepare_run.py:129-130 | `int(str(n)) == n`. |
| Strings.IntToString | prepare_run.py:84-96 | `str(i)` is the digits of i, with a minus sign before the digits of a negative i, and reads back as i. |
| PrepareRun.Get | prepare_run.py:62 | `config.get(key)` is the stored value, and `None` when the key is missing. |
| PrepareRun.Truthy | prepare_run.py:66-134 | The truth test of the `if`s: every value is true except `None`, `''`, `False` and `0`. |
| PrepareRun.PyStr | prepare_run.py:84-96 | `str(v)`: a string is itself, `None` is 'None', a boolean is 'True' or 'False', and an integer is its decimal digits, with a minus sign if negative, and reads back as itself. |
| PrepareRun.InputPath | prepare_run.py:60 | `get_input_path(name)` is `None` iff the input was not given, and otherwise the given path. |
| PrepareRun.MandatoryArgs | prepare_run.py:54-63 | The list starts with 15 fixed arguments: the executable in front, 'participant' at index 6, the license path at 8, the output spaces at 12. Every other mandatory argument is a string. |
| PrepareRun.OptionTableLayout | prepare_run.py:66-135 | The table `OptionTable` has 26 options. Only the first two read input paths. `cifti_output`, at position 20, is the only one whose guard tests for the string 'None'. `sge-cpu`, at 23, is the only thread count. |
| PrepareRun.Enabled | prepare_run.py:66-134 | An option's guard is the truth of its setting, except for `cifti_output`. That guard only rejects the string 'None', so it also holds when the setting is absent. A truthy guard means the setting is not `None`. |
| PrepareRun.NThreads | prepare_run.py:127-130 | The thread count is `max(1, cpuMin - 1)` for the first '-'-separated field: at least 1, at least cpuMin - 1, and equal to one of them. |
| PrepareRun.OptionValues | prepare_run.py:66-135 | An enabled option contributes exactly as many values as its kind takes: none for a switch, one otherwise. |
| PrepareRun.OptionalArgs | prepare_run.py:66-135 | The guarded steps append at most two arguments per option. |
| PrepareRun.OptionalArgsSnoc | prepare_run.py:66-135 | One more guarded step appends its own segment at the end of those before it. |
| PrepareRun.AppendOption | prepare_run.py:66-135 | One guarded step appends, at the end of the list, the option's flag and values when the guard holds, and nothing otherwise. |
| PrepareRun.AllOptionsHandled | prepare_run.py:66-135 | Once the options have been handled in the source's order, the list is the specified command. |
| PrepareRun.HandledOrderIsTable | prepare_run.py:66-135 | The order of the `if`s is the order of the option table. |
| PrepareRun.Command | prepare_run.py:54-135 | The list starts with the 15 mandatory arguments and holds at most two more per option. `PrepareRun.CommandLayout` states its full layout. |
| PrepareRun.BuildCommand | prepare_run.py:54-135 | The build raises (`None`) iff `sge-cpu` is truthy but not a string whose first '-'-separated field is decimal digits, where `split` or `int()` raises. Otherwise the steps build exactly the mandatory arguments followed by the optional arguments of the table, in order. |
| PrepareRun.JoinArgs | prepare_run.py:137-139 | The join fails iff some argument is not a string. Otherwise it is the arguments separated by single spaces. |
| PrepareRun.ArgStrings | prepare_run.py:137-139 | One text per argument, equal to each string argument. |
| PrepareRun.CommandStage | prepare_run.py:49-141 | `write_aslprep_command` raises iff the thread count cannot be parsed or some argument is not a string. Otherwise it returns whether the script exists. |
| PrepareRun.WriteAslprepCommand | prepare_run.py:49-141 | The list is built iff the thread count can be parsed, and is then the specified list. The script is its join, and nothing is written when the build raises. The outcome is that of `CommandStage`. |
| PrepareRun.Present | prepare_run.py:66-135 | What each option should contribute: its values iff its guard holds. |
| PrepareRun.Decode | prepare_run.py:66-135 | A successful reading has one entry per option. |
| PrepareRun.HeadIsFlag | prepare_run.py:66-135 | Non-empty optional arguments start with the flag of an enabled option. |
| PrepareRun.FlagsDistinctTail | prepare_run.py:66-135 | Distinct flags stay distinct after the first option is dropped. |
| PrepareRun.PresentCons | prepare_run.py:66-135 | The expected reading of the options is that of the first option followed by that of the rest. |
| PrepareRun.RestDoesNotStartWithFlag | prepare_run.py:66-135 | With distinct flags, the later options' arguments never start with the first option's flag. |
| PrepareRun.DecodeEnabledHead | prepare_run.py:66-135 | An enabled first option is read back as its flag and its values. |
| PrepareRun.DecodeDisabledHead | prepare_run.py:66-135 | A disabled first option is read back as absent. |
| PrepareRun.DecodeOptionalArgs | prepare_run.py:66-135 | With distinct flags, reading back the optional arguments gives, option by option and in order, exactly the enabled options and the values that follow their flags. |
| PrepareRun.FlagsDistinctBefore9 | prepare_run.py:66-91 | The first nine flags differ pairwise. |
| PrepareRun.FlagsDistinctBefore18 | prepare_run.py:66-114 | Flags 9 to 17 differ from all earlier flags. |
| PrepareRun.FlagsDistinctBefore26 | prepare_run.py:66-135 | Flags 18 to 25 differ from all earlier flags. |
| PrepareRun.TableFlagsDistinct | prepare_run.py:66-135 | No two options share a flag. |
| PrepareRun.CommandLayout | prepare_run.py:54-135 | The list is the 15 mandatory arguments, unchanged, followed by exactly the options whose guard holds, in source order, each flag immediately followed by its value. |
| PrepareRun.SegmentOccurs | prepare_run.py:66-135 | Every argument an option contributes is in the optional arguments. |
| PrepareRun.CiftiAbsentAppendsNull | prepare_run.py:119-120 | An absent `cifti_output` is not 'None', so `None` is appended after `--cifti-output`. |
| PrepareRun.CiftiAbsentRaises | prepare_run.py:119-120 | With `cifti_output` absent, the list holds `None`, the join fails, and the command stage raises. |
| PrepareRun.SgeCpuExamples | prepare_run.py:127-130 | "4-8" and an absent setting can be parsed. "abc" cannot, because `int()` raises, and neither can the integer 4, which has no `split`. With "abc" the command stage raises. |
| PrepareRun.NThreadsExamples | prepare_run.py:127-130 | "4-8" gives 3, "1" and "2" give 1, and "16" gives 15. |
| PrepareRun.ScriptSplitsBack | prepare_run.py:137-139 | When all arguments are strings without spaces, splitting the script on spaces gives the arguments back. |
| PrepareRun.MainStatus | prepare_run.py:197-213 | How `main` ends, given its stages' outcomes. The exit code is 0 iff both stages return true. It is 1 iff the first false return stops the run. The process ends uncaught iff a stage that runs raises. |
| PrepareRun.RunMain | prepare_run.py:197-213 | The command stage runs iff the download returned true. `main` ends as `MainStatus` gives for the download outcome and the command stage's outcome. |
| PrepareRun.CommandExit | prepare_run.py:206-213 | After stage 2, its exception propagates, false gives exit code 1 and true gives 0, as `MainStatus` says. |

## Left out

- The Flywheel SDK is replaced by parameters:
  - the gear context and the container lookups (prepare_run.py:16-35),
  - `get_input_path`,
  - the client.
- The BIDS download stage (`fw_heudiconv_download`, prepare_run.py:173-194) and `get_external_bids` are downloads, globbing and file moves. The download stage is the parameter `download`. As written it reads `use_all_sessions`, whose only definition is commented out at prepare_run.py:45, so it would raise a NameError. The model does not fix that outcome.
- Writing the script file, `aslprep_script.exists()`, logging and the flushes of stdout and stderr are I/O. Whether the file exists is the parameter `scriptExists`.
- The `print` of an unrecognised series (debug/heuristics.py:102) is output only. The series is simply placed in no bucket.
- The field values of `MetadataExtras`, mostly floats, are static data. Only its keys and field names are modelled.
- The module-level `ignore` list (prepare_run.py:22) is not used by the argument list, which passes the raw setting.
- build_hpc.py is not part of this model.
- Strings.DecimalValue: reads only plain decimal digits. The leniency of Python's `int()` (spaces, a sign, underscores) is not modelled. So `SgeCpuWellFormed`, which decides when the thread-count step raises, treats a first field such as " 4" or "+4" as an error, where `int()` accepts it.
- `Command` is defined for every configuration. Where the thread count cannot be parsed, it holds `--nthreads 1`, a list the source never builds. `BuildCommand`, `WriteAslprepCommand` and `CommandStage` raise in that case instead.
- Strings.Lower: maps only the letters A-Z. Python's `lower()` also maps non-ASCII letters.
- Config values that are floats or lists are not modelled. `str()` of a value is modelled for strings, booleans, integers and `None`.
- Heuristics.InfoToDict: returns a map. The key order of the Python dictionary is the sequence `KeyOrder`.

## Findings

| source | as written | input that shows it | evidently intended | confidence | as-written member | corrected member |
|---|---|---|---|---|---|---|
| debug/heuristics.py:199 | The context file is named `sub-{subject}/{session}/perf/{subject}_{session}_task-rest_aslcontext.tsv`. Its file name lacks the `sub-` of the subject entity. | Any subject, e.g. subject 01: the name is `01_…_aslcontext.tsv` instead of `sub-01_…_aslcontext.tsv` | The asl image's name with `context.tsv`: `…/perf/sub-{subject}_{session}_task-rest_aslcontext.tsv` | not executed | Heuristics.AsWrittenContextNameLacksSubjectPrefix | Heuristics.AttachToSession |
| debug/heuristics.py:175 | The fifth `IntendedFor` entry of b0_phase is `{session}/perf/sub-{subject}_{session}_task-rest_asl`, without `.nii.gz`. It names no image file. | The b0_phase entry list: entry 4 differs from the asl image `…_task-rest_asl.nii.gz` | `'{session}/perf/sub-{subject}_{session}_task-rest_asl.nii.gz'`, like the other four entries | not executed | Heuristics.IntendedForAslEntryLacksExtension | Heuristics.IntendedForNamesKeyImages |
