/**
 * The heudiconv heuristic of debug/heuristics.py: output keys, the first-match rule chain that
 * sorts DICOM series into BIDS output keys, the two static sidecar tables, the label
 * normalisation helpers and the ASL context file.
 */
module Heuristics {
  import opened Wrappers
  import opened Strings

  // ---------------------------------------------------------------------------------------------
  // Output keys

  /** A heudiconv output key: a path template, the output types and optional annotation classes. */
  datatype OutputKey = OutputKey(template: string, outtype: seq<string>, annotationClasses: Option<seq<string>>)

  datatype KeyError = ValueError(message: string)

  const DefaultOuttype: seq<string> := ["nii.gz"]

  /** `create_key`: a missing or empty template is refused; otherwise the triple is returned as given. */
  function CreateKey(template: Option<string>, outtype: seq<string> := DefaultOuttype,
                     annotationClasses: Option<seq<string>> := None): (r: Result<OutputKey, KeyError>)
    ensures r.Failure? <==> template == None || template == Some("")
    ensures r.Failure? ==> r.error == ValueError("Template must be a valid format string")
    ensures r.Success? ==> r.value == OutputKey(template.value, outtype, annotationClasses)
  {
    if template == None || template.value == "" then Failure(ValueError("Template must be a valid format string"))
    else Success(OutputKey(template.value, outtype, annotationClasses))
  }

  /** The directory every template starts with: the subject directory. */
  const SubjectDir := "sub-{subject}/"

  /**
   * The key `create_key` builds with the default arguments from a template in the subject
   * directory; `sessionTemplate` is the rest of the template, from the session directory on.
   */
  function SubjectKey(sessionTemplate: string): (k: OutputKey)
    ensures IsPrefix(SubjectDir, k.template) && k.template[|SubjectDir|..] == sessionTemplate
    ensures k.outtype == DefaultOuttype && k.annotationClasses == None
  {
    OutputKey(SubjectDir + sessionTemplate, DefaultOuttype, None)
  }

  const T1w := SubjectKey("{session}/anat/sub-{subject}_{session}_T1w")
  const T2w := SubjectKey("{session}/anat/sub-{subject}_{session}_T2w")
  const Dwi := SubjectKey("{session}/dwi/sub-{subject}_{session}_acq-multiband_dwi")
  const B0Phase := SubjectKey("{session}/fmap/sub-{subject}_{session}_phasediff")
  const B0Mag := SubjectKey("{session}/fmap/sub-{subject}_{session}_magnitude{item}")
  const PeRev := SubjectKey("{session}/fmap/sub-{subject}_{session}_acq-multiband_dir-j_epi")
  const RestMb := SubjectKey("{session}/func/sub-{subject}_{session}_task-rest_acq-multiband_bold")
  const RestSb := SubjectKey("{session}/func/sub-{subject}_{session}_task-rest_acq-singleband_bold")
  const Fracback := SubjectKey("{session}/func/sub-{subject}_{session}_task-fracback_acq-singleband_bold")
  const Face := SubjectKey("{session}/func/sub-{subject}_{session}_task-face_acq-singleband_bold")
  const Asl := SubjectKey("{session}/perf/sub-{subject}_{session}_task-rest_asl")
  const M0 := SubjectKey("{session}/perf/sub-{subject}_{session}_task-rest_moscan")
  const MeanPerf := SubjectKey("{session}/perf/sub-{subject}_{session}_task-rest_deltam")

  /** The keys of the dictionary `infotodict` returns, in the order of its literal. */
  const KeyOrder: seq<OutputKey> := [T1w, T2w, Dwi, B0Phase, B0Mag, PeRev, RestMb, RestSb, Fracback, Face, Asl, M0]

  const InfoKeys: set<OutputKey> := {T1w, T2w, Dwi, B0Phase, B0Mag, PeRev, RestMb, RestSb, Fracback, Face, Asl, M0}

  /** Every key constant is what `create_key` builds from its template with the default arguments. */
  lemma KeyConstantsAreCreated()
    ensures forall k :: k in InfoKeys + {MeanPerf} ==> CreateKey(Some(k.template)) == Success(k)
    ensures forall k :: k in InfoKeys + {MeanPerf} ==> k.outtype == ["nii.gz"] && k.annotationClasses == None
  {
  }

  /** The twelve keys and `mean_perf` are pairwise distinct: their templates differ. */
  lemma KeyConstantsDistinct()
    ensures forall i, j :: 0 <= i < j < |KeyOrder + [MeanPerf]| ==> (KeyOrder + [MeanPerf])[i] != (KeyOrder + [MeanPerf])[j]
  {
    var all := KeyOrder + [MeanPerf];
    forall i, j | 0 <= i < j < |all| ensures all[i] != all[j] {
      assert all[i].template[|SubjectDir|..] != all[j].template[|SubjectDir|..];
    }
  }

  /** The twelve keys are pairwise distinct. */
  lemma KeyOrderDistinct()
    ensures forall i, j :: 0 <= i < j < |KeyOrder| ==> KeyOrder[i] != KeyOrder[j]
  {
    KeyConstantsDistinct();
    forall i, j | 0 <= i < j < |KeyOrder| ensures KeyOrder[i] != KeyOrder[j] {
      assert KeyOrder[i] == (KeyOrder + [MeanPerf])[i] && KeyOrder[j] == (KeyOrder + [MeanPerf])[j];
    }
  }

  /** `InfoKeys` holds exactly the keys of `KeyOrder`. */
  lemma InfoKeysAreKeyOrder()
    ensures forall k :: k in InfoKeys <==> k in KeyOrder
  {
  }

  /** `mean_perf` is not a key of the dictionary. */
  lemma MeanPerfIsNoInfoKey()
    ensures MeanPerf !in InfoKeys
  {
    var all := KeyOrder + [MeanPerf];
    KeyConstantsDistinct();
    assert all[12] == MeanPerf;
    assert forall i :: 0 <= i < 12 ==> all[i] == KeyOrder[i];
    assert MeanPerf !in KeyOrder;
    InfoKeysAreKeyOrder();
  }

  /** There are twelve output keys. */
  lemma InfoKeysCount()
    ensures |InfoKeys| == 12
  {
    KeyOrderDistinct();
    InfoKeysAreKeyOrder();
    DistinctElements(KeyOrder);
    assert InfoKeys == set k | k in KeyOrder;
  }

  /** A sequence without repetitions has as many distinct elements as entries. */
  lemma {:induction false} DistinctElements(keys: seq<OutputKey>)
    requires forall i, j :: 0 <= i < j < |keys| ==> keys[i] != keys[j]
    ensures |set k | k in keys| == |keys|
    decreases |keys|
  {
    if |keys| > 0 {
      DistinctElements(keys[1..]);
      assert (set k | k in keys) == (set k | k in keys[1..]) + {keys[0]};
      assert keys[0] !in keys[1..];
    }
  }

  // ---------------------------------------------------------------------------------------------
  // Scan descriptors and the rule chain

  /** The fields of a heudiconv `seqinfo` record that the heuristic reads. */
  datatype ScanInfo = ScanInfo(
    protocolName: string,
    seriesDescription: string,
    imageType: seq<string>,
    isDerived: bool,
    seriesId: string,
    patientId: string,
    dcmDirName: string)

  /**
   * The key the `if/elif` chain of `infotodict` appends one series to, or `None` when no branch
   * matches (the series is only reported as not recognised).
   */
  function Classify(s: ScanInfo): (k: Option<OutputKey>)
    ensures k.Some? ==> k.value in InfoKeys
  {
    var protocol := Lower(s.protocolName);
    if Contains("mprage", protocol) then Some(T1w)
    else if Contains("t2_sag", protocol) then Some(T2w)
    else if Contains("b0map", protocol) && "M" in s.imageType then Some(B0Mag)
    else if Contains("b0map", protocol) && "P" in s.imageType then Some(B0Phase)
    else if Contains("topup_ref", protocol) then Some(PeRev)
    else if Contains("117dir", protocol) && !s.isDerived then Some(Dwi)
    else if EndsWith(s.seriesDescription, "_ASL") then Some(Asl)
    else if EndsWith(s.seriesDescription, "_M0") then Some(M0)
    else if Contains("fracback", protocol) then Some(Fracback)
    else if Contains("face", protocol) then Some(Face)
    else if Contains("rest", protocol) then (if "MB" in s.imageType then Some(RestMb) else Some(RestSb))
    else if Contains(s.patientId, s.dcmDirName) then Some(Asl)
    else None
  }

  // ---------------------------------------------------------------------------------------------
  // The same rules as a table, checked first to last

  /** One classification rule; protocol tests are made on the lower-cased protocol name. */
  datatype Rule =
    | ProtocolHas(needle: string, key: OutputKey)
    | ProtocolAndTag(needle: string, tag: string, key: OutputKey)
    | ProtocolNotDerived(needle: string, key: OutputKey)
    | DescriptionEndsWith(suffix: string, key: OutputKey)
    | ProtocolByTag(needle: string, tag: string, key: OutputKey, otherwise: OutputKey)
    | PatientInDirName(key: OutputKey)

  predicate Fires(r: Rule, s: ScanInfo)
  {
    var protocol := Lower(s.protocolName);
    match r
    case ProtocolHas(needle, _) => Contains(needle, protocol)
    case ProtocolAndTag(needle, tag, _) => Contains(needle, protocol) && tag in s.imageType
    case ProtocolNotDerived(needle, _) => Contains(needle, protocol) && !s.isDerived
    case DescriptionEndsWith(suffix, _) => EndsWith(s.seriesDescription, suffix)
    case ProtocolByTag(needle, _, _, _) => Contains(needle, protocol)
    case PatientInDirName(_) => Contains(s.patientId, s.dcmDirName)
  }

  function Target(r: Rule, s: ScanInfo): OutputKey
  {
    match r
    case ProtocolByTag(_, tag, key, otherwise) => if tag in s.imageType then key else otherwise
    case _ => r.key
  }

  const Rules: seq<Rule> := [
    ProtocolHas("mprage", T1w),
    ProtocolHas("t2_sag", T2w),
    ProtocolAndTag("b0map", "M", B0Mag),
    ProtocolAndTag("b0map", "P", B0Phase),
    ProtocolHas("topup_ref", PeRev),
    ProtocolNotDerived("117dir", Dwi),
    DescriptionEndsWith("_ASL", Asl),
    DescriptionEndsWith("_M0", M0),
    ProtocolHas("fracback", Fracback),
    ProtocolHas("face", Face),
    ProtocolByTag("rest", "MB", RestMb, RestSb),
    PatientInDirName(Asl)
  ]

  /** The target of the first rule that fires, if any. */
  function FirstMatch(rules: seq<Rule>, s: ScanInfo): Option<OutputKey>
  {
    if |rules| == 0 then None
    else if Fires(rules[0], s) then Some(Target(rules[0], s))
    else FirstMatch(rules[1..], s)
  }

  /** Rule `i` is the first rule of `rules` that fires on `s`. */
  predicate DecidedBy(rules: seq<Rule>, s: ScanInfo, i: int)
  {
    0 <= i < |rules| && Fires(rules[i], s) && forall j :: 0 <= j < i ==> !Fires(rules[j], s)
  }

  /** First-match semantics: the result is the target of the first rule that fires, and `None` when none does. */
  lemma {:induction false} FirstMatchIff(rules: seq<Rule>, s: ScanInfo)
    ensures FirstMatch(rules, s).Some? <==> exists i :: DecidedBy(rules, s, i)
    ensures forall i :: DecidedBy(rules, s, i) ==> FirstMatch(rules, s) == Some(Target(rules[i], s))
    ensures FirstMatch(rules, s).None? <==> forall i :: 0 <= i < |rules| ==> !Fires(rules[i], s)
  {
    if |rules| > 0 {
      if Fires(rules[0], s) {
        assert DecidedBy(rules, s, 0);
        forall i | DecidedBy(rules, s, i) ensures i == 0 { }
      } else {
        FirstMatchIff(rules[1..], s);
        forall i | DecidedBy(rules[1..], s, i) ensures DecidedBy(rules, s, i + 1) {
          forall j | 0 <= j < i + 1 ensures !Fires(rules[j], s) {
            if j > 0 { assert rules[j] == rules[1..][j - 1]; }
          }
        }
        forall i | DecidedBy(rules, s, i) ensures i > 0 && DecidedBy(rules[1..], s, i - 1) {
          forall j | 0 <= j < i - 1 ensures !Fires(rules[1..][j], s) {
            assert rules[1..][j] == rules[j + 1];
          }
        }
        if forall i :: 0 <= i < |rules[1..]| ==> !Fires(rules[1..][i], s) {
          forall i | 0 <= i < |rules| ensures !Fires(rules[i], s) {
            if i > 0 { assert rules[i] == rules[1..][i - 1]; }
          }
        }
      }
    }
  }

  /** Skipping rules that do not fire does not change the first match. */
  lemma {:induction false} FirstMatchSkip(rules: seq<Rule>, s: ScanInfo, n: nat)
    requires n <= |rules|
    requires forall j :: 0 <= j < n ==> !Fires(rules[j], s)
    ensures FirstMatch(rules, s) == FirstMatch(rules[n..], s)
    decreases n
  {
    if n > 0 {
      assert !Fires(rules[0], s);
      FirstMatchSkip(rules[1..], s, n - 1);
      assert rules[1..][n - 1..] == rules[n..];
    }
  }

  /** The `if/elif` chain is the first-match evaluation of the rule table. */
  lemma ClassifyIsFirstMatch(s: ScanInfo)
    ensures Classify(s) == FirstMatch(Rules, s)
  {
    // Follow the chain one rule at a time; each step unfolds one rule of the table.
    var protocol := Lower(s.protocolName);
    assert Rules[0..] == Rules;
    FirstMatchUnfold(Rules, s, 0);
    if !Contains("mprage", protocol) {
      FirstMatchUnfold(Rules, s, 1);
      if !Contains("t2_sag", protocol) {
        FirstMatchUnfold(Rules, s, 2);
        if !(Contains("b0map", protocol) && "M" in s.imageType) {
          FirstMatchUnfold(Rules, s, 3);
          if !(Contains("b0map", protocol) && "P" in s.imageType) {
            MiddleRulesAreFirstMatch(s);
          }
        }
      }
    }
  }

  /** The field-map and diffusion rules, once none of the first four rules has fired. */
  lemma MiddleRulesAreFirstMatch(s: ScanInfo)
    requires !Contains("mprage", Lower(s.protocolName)) && !Contains("t2_sag", Lower(s.protocolName))
    requires !(Contains("b0map", Lower(s.protocolName)) && ("M" in s.imageType || "P" in s.imageType))
    ensures Classify(s) == FirstMatch(Rules[4..], s)
  {
    var protocol := Lower(s.protocolName);
    var topup, dwi := Contains("topup_ref", protocol), Contains("117dir", protocol) && !s.isDerived;
    assert Fires(Rules[4], s) == topup && Target(Rules[4], s) == PeRev;
    assert Fires(Rules[5], s) == dwi && Target(Rules[5], s) == Dwi;
    FirstMatchUnfold(Rules, s, 4);
    if !topup {
      FirstMatchUnfold(Rules, s, 5);
      if !dwi {
        DescriptionRulesAreFirstMatch(s);
      }
    }
  }

  /** The two series-description rules, once none of the first six rules has fired. */
  lemma DescriptionRulesAreFirstMatch(s: ScanInfo)
    requires !Contains("mprage", Lower(s.protocolName)) && !Contains("t2_sag", Lower(s.protocolName))
    requires !(Contains("b0map", Lower(s.protocolName)) && ("M" in s.imageType || "P" in s.imageType))
    requires !Contains("topup_ref", Lower(s.protocolName))
    requires !(Contains("117dir", Lower(s.protocolName)) && !s.isDerived)
    ensures Classify(s) == FirstMatch(Rules[6..], s)
  {
    var asl := EndsWith(s.seriesDescription, "_ASL");
    var m0 := EndsWith(s.seriesDescription, "_M0");
    assert Fires(Rules[6], s) == asl && Target(Rules[6], s) == Asl;
    assert Fires(Rules[7], s) == m0 && Target(Rules[7], s) == M0;
    FirstMatchUnfold(Rules, s, 6);
    if !asl {
      FirstMatchUnfold(Rules, s, 7);
      if !m0 {
        LaterRulesAreFirstMatch(s);
      }
    }
  }

  /** The end of the chain, once none of the first eight rules has fired. */
  lemma LaterRulesAreFirstMatch(s: ScanInfo)
    requires !Contains("mprage", Lower(s.protocolName)) && !Contains("t2_sag", Lower(s.protocolName))
    requires !(Contains("b0map", Lower(s.protocolName)) && ("M" in s.imageType || "P" in s.imageType))
    requires !Contains("topup_ref", Lower(s.protocolName))
    requires !(Contains("117dir", Lower(s.protocolName)) && !s.isDerived)
    requires !EndsWith(s.seriesDescription, "_ASL") && !EndsWith(s.seriesDescription, "_M0")
    ensures Classify(s) == FirstMatch(Rules[8..], s)
  {
    var protocol := Lower(s.protocolName);
    FirstMatchUnfold(Rules, s, 8);
    if !Contains("fracback", protocol) {
      FirstMatchUnfold(Rules, s, 9);
      if !Contains("face", protocol) {
        FirstMatchUnfold(Rules, s, 10);
        if !Contains("rest", protocol) {
          FirstMatchUnfold(Rules, s, 11);
          assert Rules[12..] == [];
        }
      }
    }
  }

  lemma FirstMatchUnfold(rules: seq<Rule>, s: ScanInfo, k: nat)
    requires k < |rules|
    ensures FirstMatch(rules[k..], s)
         == if Fires(rules[k], s) then Some(Target(rules[k], s)) else FirstMatch(rules[k + 1..], s)
  {
    assert rules[k..][1..] == rules[k + 1..];
  }

  /** Once the rules up to `i` have not fired, the scan is decided by the rules after `i`. */
  lemma FallsThrough(s: ScanInfo, i: nat)
    requires i < |Rules|
    requires forall j :: 0 <= j <= i ==> !Fires(Rules[j], s)
    ensures Classify(s) == FirstMatch(Rules[i + 1..], s)
  {
    ClassifyIsFirstMatch(s);
    FirstMatchSkip(Rules, s, i + 1);
  }

  // ---------------------------------------------------------------------------------------------
  // Precedence and case sensitivity of the rules

  /** A protocol naming "mprage" goes to T1w, whatever the other fields are. */
  lemma MprageWins(s: ScanInfo)
    requires Contains("mprage", Lower(s.protocolName))
    ensures Classify(s) == Some(T1w)
  {
  }

  /** A "b0map" protocol whose image type has neither "M" nor "P" is left to the rules after the field maps. */
  lemma B0mapWithoutMagnitudeOrPhaseFallsThrough(s: ScanInfo)
    requires !Contains("mprage", Lower(s.protocolName)) && !Contains("t2_sag", Lower(s.protocolName))
    requires Contains("b0map", Lower(s.protocolName))
    requires "M" !in s.imageType && "P" !in s.imageType
    ensures Classify(s) == FirstMatch(Rules[4..], s)
    ensures Classify(s) != Some(B0Mag) && Classify(s) != Some(B0Phase)
  {
    FallsThrough(s, 3);
    ClassifyIsFirstMatch(s);
  }

  /** A derived series that no rule before the diffusion rule takes is left to the rules after it. */
  lemma DerivedDiffusionFallsThrough(s: ScanInfo)
    requires s.isDerived
    requires forall j :: 0 <= j < 5 ==> !Fires(Rules[j], s)
    ensures Classify(s) == FirstMatch(Rules[6..], s)
    ensures Classify(s) != Some(Dwi)
  {
    FallsThrough(s, 5);
    KeyOrderDistinct();
  }

  /** A derived series is never put in the diffusion bucket, whichever rule decides it. */
  lemma DerivedNeverDwi(s: ScanInfo)
    requires s.isDerived
    ensures Classify(s) != Some(Dwi)
  {
    KeyOrderDistinct();
    var others := [T1w, T2w, B0Phase, B0Mag, PeRev, RestMb, RestSb, Fracback, Face, Asl, M0];
    assert forall j :: 0 <= j < 11 ==> others[j] == KeyOrder[if j < 2 then j else j + 1];
    assert Dwi !in others;
  }

  /** A "rest" protocol reached by no earlier rule is multiband exactly when its image type holds "MB". */
  lemma RestSplitsOnMultiband(s: ScanInfo)
    requires forall j :: 0 <= j < 10 ==> !Fires(Rules[j], s)
    requires Contains("rest", Lower(s.protocolName))
    ensures Classify(s) == Some(if "MB" in s.imageType then RestMb else RestSb)
  {
    FallsThrough(s, 9);
  }

  /** A series no protocol or description rule takes goes to ASL exactly when its patient id occurs in its directory name. */
  lemma PatientIdFallback(s: ScanInfo)
    requires forall j :: 0 <= j < 11 ==> !Fires(Rules[j], s)
    ensures Classify(s) == (if Contains(s.patientId, s.dcmDirName) then Some(Asl) else None)
  {
    FallsThrough(s, 10);
  }

  /** Protocol tests ignore case: two protocol names that lower-case alike classify alike. */
  lemma ProtocolCaseInsensitive(s: ScanInfo, protocolName: string)
    requires Lower(protocolName) == Lower(s.protocolName)
    ensures Classify(s.(protocolName := protocolName)) == Classify(s)
  {
  }

  /** Which rule needles the protocol name "asl" contains: none. */
  lemma AslProtocolFacts()
    ensures Lower("asl") == "asl"
    ensures !Contains("mprage", "asl") && !Contains("t2_sag", "asl") && !Contains("b0map", "asl") && !Contains("topup_ref", "asl")
    ensures !Contains("117dir", "asl") && !Contains("fracback", "asl") && !Contains("face", "asl") && !Contains("rest", "asl")
  {
    AbsentByLength("mprage", "asl");
    AbsentByLength("t2_sag", "asl");
    AbsentByLength("b0map", "asl");
    AbsentByLength("topup_ref", "asl");
    AbsentByLength("117dir", "asl");
    AbsentByLength("fracback", "asl");
    AbsentByLength("face", "asl");
    AbsentByLength("rest", "asl");
  }

  /** Which rule needles the lower-cased protocol name "B0map" contains: only "b0map". */
  lemma B0mapProtocolFacts()
    ensures Contains("b0map", "b0map")
    ensures !Contains("mprage", "b0map") && !Contains("t2_sag", "b0map") && !Contains("topup_ref", "b0map")
    ensures !Contains("117dir", "b0map") && !Contains("fracback", "b0map") && !Contains("face", "b0map") && !Contains("rest", "b0map")
  {
    AbsentByLength("mprage", "b0map");
    AbsentByLength("t2_sag", "b0map");
    AbsentByLength("topup_ref", "b0map");
    AbsentByLength("117dir", "b0map");
    AbsentByLength("fracback", "b0map");
    AbsentByChar("face", "b0map", 'f');
    AbsentByChar("rest", "b0map", 'r');
  }

  /** Which rule needles the lower-cased protocol name "Rest" contains: only "rest". */
  lemma RestProtocolFacts()
    ensures Contains("rest", "rest")
    ensures !Contains("mprage", "rest") && !Contains("t2_sag", "rest") && !Contains("b0map", "rest") && !Contains("topup_ref", "rest")
    ensures !Contains("117dir", "rest") && !Contains("fracback", "rest") && !Contains("face", "rest")
  {
    AbsentByLength("mprage", "rest");
    AbsentByLength("t2_sag", "rest");
    AbsentByLength("b0map", "rest");
    AbsentByLength("topup_ref", "rest");
    AbsentByLength("117dir", "rest");
    AbsentByLength("fracback", "rest");
    AbsentByChar("face", "rest", 'f');
  }

  /** The series-description suffix test is case-sensitive: "perf_ASL" ends with "_ASL" ... */
  lemma UpperCaseAslSuffixMatches()
    ensures Classify(ScanInfo("asl", "perf_ASL", [], false, "5", "P01", "")) == Some(Asl)
  {
    AslProtocolFacts();
  }

  /** ... and "perf_asl" does not, so that series is not recognised at all. */
  lemma LowerCaseAslSuffixDoesNotMatch()
    ensures Classify(ScanInfo("asl", "perf_asl", [], false, "5", "P01", "")) == None
  {
    AslProtocolFacts();
    AbsentByLength("P01", "");
  }

  /** Image-type tags are compared exactly: "M" is the magnitude tag ... */
  lemma MagnitudeTagMatches()
    ensures Classify(ScanInfo("B0map", "", ["M"], false, "3", "P01", "")) == Some(B0Mag)
  {
    assert Lower("B0map") == "b0map";
    B0mapProtocolFacts();
  }

  /** ... and "m" is not: the series then matches no rule. */
  lemma LowerCaseMagnitudeTagDoesNotMatch()
    ensures Classify(ScanInfo("B0map", "", ["m"], false, "3", "P01", "")) == None
  {
    assert Lower("B0map") == "b0map";
    B0mapProtocolFacts();
    AbsentByLength("P01", "");
  }

  /** A "rest" protocol is multiband when tagged "MB" ... */
  lemma MultibandRestExample()
    ensures Classify(ScanInfo("Rest", "", ["ORIGINAL", "MB"], false, "4", "P01", "")) == Some(RestMb)
  {
    assert Lower("Rest") == "rest";
    RestProtocolFacts();
  }

  /** ... and singleband otherwise, also when tagged "mb" rather than "MB". */
  lemma SinglebandRestExample()
    ensures Classify(ScanInfo("Rest", "", ["ORIGINAL"], false, "4", "P01", "")) == Some(RestSb)
    ensures Classify(ScanInfo("Rest", "", ["mb"], false, "4", "P01", "")) == Some(RestSb)
  {
    assert Lower("Rest") == "rest";
    RestProtocolFacts();
  }

  /** An MPRAGE protocol, in any case, is T1-weighted. */
  lemma MprageExample()
    ensures Classify(ScanInfo("MPRAGE", "", [], false, "1", "P01", "")) == Some(T1w)
  {
    assert Lower("MPRAGE") == "mprage";
    assert IsPrefix("mprage", "mprage");
  }

  // ---------------------------------------------------------------------------------------------
  // infotodict

  /** The series ids the rules send to `key`, in input order. */
  function Bucket(seqinfo: seq<ScanInfo>, key: OutputKey): seq<string>
  {
    if |seqinfo| == 0 then []
    else
      var last := seqinfo[|seqinfo| - 1];
      Bucket(seqinfo[..|seqinfo| - 1], key) + (if Classify(last) == Some(key) then [last.seriesId] else [])
  }

  /**
   * `infotodict`: one pass over the series, appending each series id to the list of the key the
   * rule chain chooses. The result has exactly the twelve keys, and each list is that key's bucket.
   */
  method InfoToDict(seqinfo: seq<ScanInfo>) returns (info: map<OutputKey, seq<string>>)
    ensures info.Keys == InfoKeys && MeanPerf !in info
    ensures forall k :: k in info ==> info[k] == Bucket(seqinfo, k)
  {
    // The dictionary literal: every key mapped to an empty list.
    info := map k | k in InfoKeys :: [];
    for i := 0 to |seqinfo|
      invariant info.Keys == InfoKeys
      invariant forall k :: k in info ==> info[k] == Bucket(seqinfo[..i], k)
    {
      var s := seqinfo[i];
      assert seqinfo[..i + 1][..i] == seqinfo[..i];
      var key := Classify(s);
      if key.Some? {
        // get_latest_series
        info := info[key.value := info[key.value] + [s.seriesId]];
      }
    }
    assert seqinfo[..|seqinfo|] == seqinfo;
    MeanPerfIsNoInfoKey();
  }

  /** An empty series list gives twelve empty lists. */
  lemma EmptyInputGivesEmptyBuckets()
    ensures forall k :: Bucket([], k) == []
  {
  }

  /** Positions, in increasing order, of the series the rules send to `key`. */
  function Positions(seqinfo: seq<ScanInfo>, key: OutputKey): seq<nat>
  {
    if |seqinfo| == 0 then []
    else
      Positions(seqinfo[..|seqinfo| - 1], key)
        + (if Classify(seqinfo[|seqinfo| - 1]) == Some(key) then [|seqinfo| - 1] else [])
  }

  /**
   * A bucket lists the ids of exactly the series classified to its key, each once, in input order:
   * it is the ids at strictly increasing positions, and a position is among them exactly when that
   * series is classified to the key. So a series is in no bucket but its own, and an unrecognised
   * series is in none.
   */
  lemma {:induction false} BucketIsOrderedSelection(seqinfo: seq<ScanInfo>, key: OutputKey)
    ensures |Bucket(seqinfo, key)| == |Positions(seqinfo, key)|
    ensures forall t :: 0 <= t < |Positions(seqinfo, key)| ==>
      Positions(seqinfo, key)[t] < |seqinfo| && Bucket(seqinfo, key)[t] == seqinfo[Positions(seqinfo, key)[t]].seriesId
    ensures forall t, u :: 0 <= t < u < |Positions(seqinfo, key)| ==> Positions(seqinfo, key)[t] < Positions(seqinfo, key)[u]
    ensures forall i :: 0 <= i < |seqinfo| ==> (i in Positions(seqinfo, key) <==> Classify(seqinfo[i]) == Some(key))
  {
    if |seqinfo| > 0 {
      var init := seqinfo[..|seqinfo| - 1];
      BucketIsOrderedSelection(init, key);
      assert forall i :: 0 <= i < |init| ==> init[i] == seqinfo[i];
      assert forall t :: 0 <= t < |Positions(init, key)| ==> Positions(init, key)[t] < |init|;
    }
  }

  /** Number of series the rules recognise. */
  function RecognisedCount(seqinfo: seq<ScanInfo>): nat
  {
    if |seqinfo| == 0 then 0
    else RecognisedCount(seqinfo[..|seqinfo| - 1]) + (if Classify(seqinfo[|seqinfo| - 1]).Some? then 1 else 0)
  }

  /** Total length of the buckets of `keys`. */
  function PlacedCount(seqinfo: seq<ScanInfo>, keys: seq<OutputKey>): nat
  {
    if |keys| == 0 then 0 else |Bucket(seqinfo, keys[0])| + PlacedCount(seqinfo, keys[1..])
  }

  /** Number of entries of `keys` that equal the chosen key `c`. */
  function Hits(keys: seq<OutputKey>, c: Option<OutputKey>): nat
  {
    if |keys| == 0 then 0 else (if c == Some(keys[0]) then 1 else 0) + Hits(keys[1..], c)
  }

  lemma {:induction false} PlacedCountStep(seqinfo: seq<ScanInfo>, keys: seq<OutputKey>)
    requires |seqinfo| > 0
    ensures PlacedCount(seqinfo, keys)
         == PlacedCount(seqinfo[..|seqinfo| - 1], keys) + Hits(keys, Classify(seqinfo[|seqinfo| - 1]))
    decreases |keys|
  {
    if |keys| > 0 {
      PlacedCountStep(seqinfo, keys[1..]);
    }
  }

  lemma {:induction false} HitsOfDistinct(keys: seq<OutputKey>, c: Option<OutputKey>)
    requires forall i, j :: 0 <= i < j < |keys| ==> keys[i] != keys[j]
    ensures Hits(keys, c) == (if c.Some? && c.value in keys then 1 else 0)
    decreases |keys|
  {
    if |keys| > 0 {
      HitsOfDistinct(keys[1..], c);
      if c == Some(keys[0]) {
        assert c.value !in keys[1..];
      }
    }
  }

  /** Each series lands in at most one bucket: the buckets hold one entry per recognised series in all. */
  lemma {:induction false} BucketsHoldEachSeriesOnce(seqinfo: seq<ScanInfo>)
    ensures PlacedCount(seqinfo, KeyOrder) == RecognisedCount(seqinfo)
    ensures RecognisedCount(seqinfo) <= |seqinfo|
  {
    if |seqinfo| > 0 {
      BucketsHoldEachSeriesOnce(seqinfo[..|seqinfo| - 1]);
      PlacedCountStep(seqinfo, KeyOrder);
      KeyOrderDistinct();
      HitsOfDistinct(KeyOrder, Classify(seqinfo[|seqinfo| - 1]));
    } else {
      EmptyPlaced(KeyOrder);
    }
  }

  lemma {:induction false} EmptyPlaced(keys: seq<OutputKey>)
    ensures PlacedCount([], keys) == 0
    decreases |keys|
  {
    if |keys| > 0 { EmptyPlaced(keys[1..]); }
  }

  // ---------------------------------------------------------------------------------------------
  // Static sidecar tables

  /**
   * `MetadataExtras`: the extra sidecar fields written for three keys, by field name in the order
   * of the literal (the values, mostly floats, are not modelled).
   */
  const MetadataExtras: map<OutputKey, seq<string>> := map[
    B0Phase := ["EchoTime1", "EchoTime2"],
    Asl := AslExtraFields,
    MeanPerf := AslExtraFields[..2] + ["MagneticFieldStrength"] + AslExtraFields[2..]
  ]

  const AslExtraFields: seq<string> := [
    "PulseSequenceType", "PulseSequenceDetails", "LabelingType", "LabelingDuration",
    "PostLabelingDelay", "BackgroundSuppression", "M0", "LabelingSlabLocation",
    "LabelingOrientation", "LabelingDistance", "AverageLabelingGradient",
    "SliceSelectiveLabelingGradient", "AverageB1LabelingPulses", "LabelingSlabThickness",
    "AcquisitionDuration", "BackgroundSuppressionLength", "BackgroundSuppressionPulseTime",
    "VascularCrushingVenc", "PulseDuration", "InterPulseSpacing", "PCASLType", "PASLType",
    "LookLocker", "LabelingEfficiency", "BolusCutOffFlag", "BolusCutOffTimingSequence",
    "BolusCutOffDelayTime", "BolusCutOffTechnique"
  ]

  /**
   * The table covers the phase-difference map, the ASL series and the mean-perfusion output; the
   * last is not a key of `infotodict`. Mean perfusion carries the ASL fields plus the field strength.
   */
  lemma MetadataExtrasKeys()
    ensures MetadataExtras.Keys == {B0Phase, Asl, MeanPerf}
    ensures MetadataExtras.Keys - InfoKeys == {MeanPerf}
    ensures |MetadataExtras[B0Phase]| == 2 && |MetadataExtras[Asl]| == 28 && |MetadataExtras[MeanPerf]| == 29
    ensures (set f | f in MetadataExtras[MeanPerf]) == (set f | f in MetadataExtras[Asl]) + {"MagneticFieldStrength"}
  {
    MeanPerfIsNoInfoKey();
  }

  /** The NIfTI image a key produces, relative to the subject directory, as `IntendedFor` names files. */
  function SessionImage(k: OutputKey): (p: string)
    requires IsPrefix(SubjectDir, k.template)
    ensures SubjectDir + p == k.template + ".nii.gz"
  {
    var p := k.template[|SubjectDir|..] + ".nii.gz";
    assert SubjectDir + k.template[|SubjectDir|..] == k.template;
    p
  }

  /**
   * `IntendedFor` as written: the field maps and the files each one corrects. Each path is written
   * as the session part of a key template followed by the file extension.
   */
  const IntendedForAsWritten: map<OutputKey, seq<string>> := map[
    B0Phase := [
      "{session}/func/sub-{subject}_{session}_task-rest_acq-multiband_bold" + ".nii.gz",
      "{session}/func/sub-{subject}_{session}_task-rest_acq-singleband_bold" + ".nii.gz",
      "{session}/func/sub-{subject}_{session}_task-fracback_acq-singleband_bold" + ".nii.gz",
      "{session}/func/sub-{subject}_{session}_task-face_acq-singleband_bold" + ".nii.gz",
      "{session}/perf/sub-{subject}_{session}_task-rest_asl"],
    B0Mag := [],
    PeRev := ["{session}/dwi/sub-{subject}_{session}_acq-multiband_dwi" + ".nii.gz"]
  ]

  /** `IntendedFor` with the ASL entry naming the image file, like the other entries. */
  const IntendedFor: map<OutputKey, seq<string>> :=
    IntendedForAsWritten[B0Phase := IntendedForAsWritten[B0Phase][4 := IntendedForAsWritten[B0Phase][4] + ".nii.gz"]]

  /**
   * As written, every entry but the ASL one names the image of an output key; the ASL entry names
   * the ASL template without the ".nii.gz" extension, which is the image of no key.
   */
  lemma IntendedForAslEntryLacksExtension()
    ensures forall i :: 0 <= i < 4 ==> IntendedForAsWritten[B0Phase][i] == SessionImage([RestMb, RestSb, Fracback, Face][i])
    ensures IntendedForAsWritten[PeRev] == [SessionImage(Dwi)]
    ensures SubjectDir + IntendedForAsWritten[B0Phase][4] == Asl.template
    ensures forall k :: k in IntendedForAsWritten[B0Phase] ==> k != SessionImage(Asl)
    ensures forall k: OutputKey :: IsPrefix(SubjectDir, k.template) ==> IntendedForAsWritten[B0Phase][4] != SessionImage(k)
  {
    var w := IntendedForAsWritten[B0Phase];
    forall k: OutputKey | IsPrefix(SubjectDir, k.template) ensures w[4] != SessionImage(k) {
      var p := SessionImage(k);
      var q := k.template + ".nii.gz";
      assert SubjectDir + p == q;
      assert p[|p| - 1] == (SubjectDir + p)[|SubjectDir + p| - 1] == q[|q| - 1] == 'z';
      assert w[4][|w[4]| - 1] == 'l';
    }
    assert |w[4]| < |SessionImage(Asl)|;
    assert SubjectDir + w[4] == Asl.template by {
      assert Asl.template == SubjectDir + w[4];
    }
    forall i | 0 <= i < 4 ensures w[i] != SessionImage(Asl) {
      assert |w[i]| > |SessionImage(Asl)|;
    }
  }

  /**
   * Every corrected entry is the image of an output key: the phase map is intended for the four
   * functional series and the ASL series, the reverse-phase map for the diffusion series, and the
   * magnitude map for nothing.
   */
  lemma IntendedForNamesKeyImages()
    ensures IntendedFor.Keys == {B0Phase, B0Mag, PeRev} && IntendedFor.Keys <= InfoKeys
    ensures IntendedFor[B0Phase] == [SessionImage(RestMb), SessionImage(RestSb), SessionImage(Fracback), SessionImage(Face), SessionImage(Asl)]
    ensures IntendedFor[B0Mag] == []
    ensures IntendedFor[PeRev] == [SessionImage(Dwi)]
  {
    KeyOrderDistinct();
  }

  // ---------------------------------------------------------------------------------------------
  // Label normalisation

  /** `r` is the label `text` without its leading '0' characters: a suffix whose removed prefix is all '0' and that does not start with '0'. */
  predicate IsZeroStripped(text: string, r: string)
  {
    |r| <= |text| && r == text[|text| - |r|..]
    && (forall i :: 0 <= i < |text| - |r| ==> text[i] == '0')
    && (r == [] || r[0] != '0')
  }

  /** `ReplaceSubject`: the subject label with leading zeros stripped. */
  function ReplaceSubject(text: string): (r: string)
    ensures IsZeroStripped(text, r)
  {
    LStrip(text, '0')
  }

  /** `ReplaceSession`: the session label with leading zeros stripped. */
  function ReplaceSession(text: string): (r: string)
    ensures IsZeroStripped(text, r)
  {
    LStrip(text, '0')
  }

  /** The stripped label is the longest suffix of the label that does not start with '0', and it is the only zero-stripped form. */
  lemma ZeroStrippedIsLongest(text: string, r: string)
    requires IsZeroStripped(text, r)
    ensures forall j :: 0 <= j <= |text| && (text[j..] == [] || text[j] != '0') ==> |text[j..]| <= |r|
    ensures forall r' :: IsZeroStripped(text, r') ==> r' == r
  {
    forall j | 0 <= j <= |text| && (text[j..] == [] || text[j] != '0')
      ensures |text[j..]| <= |r|
    {
    }
    forall r' | IsZeroStripped(text, r') ensures r' == r {
      assert |r'| == |r|;
    }
  }

  /** Normalising a label twice is the same as once, and a label without a leading zero is unchanged. */
  lemma ReplaceSubjectIdempotent(text: string)
    ensures ReplaceSubject(ReplaceSubject(text)) == ReplaceSubject(text)
    ensures (text == [] || text[0] != '0') ==> ReplaceSubject(text) == text
  {
    var r := ReplaceSubject(text);
    ZeroStrippedIsLongest(r, ReplaceSubject(r));
    assert IsZeroStripped(r, r);
    if text == [] || text[0] != '0' {
      ZeroStrippedIsLongest(text, r);
      assert IsZeroStripped(text, text);
    }
  }

  /** Subject and session labels are normalised alike. */
  lemma ReplaceSessionIsReplaceSubject(text: string)
    ensures ReplaceSession(text) == ReplaceSubject(text)
  {
    ZeroStrippedIsLongest(text, ReplaceSubject(text));
  }

  /** "007" becomes "7", "0" becomes the empty label and "123" stays as it is. */
  lemma ReplaceSubjectExamples()
    ensures ReplaceSubject("007") == "7" && ReplaceSubject("0") == "" && ReplaceSubject("123") == "123"
  {
    ZeroStrippedIsLongest("007", ReplaceSubject("007"));
    assert IsZeroStripped("007", "7");
    ZeroStrippedIsLongest("0", ReplaceSubject("0"));
    assert IsZeroStripped("0", "");
    ReplaceSubjectIdempotent("123");
  }

  // ---------------------------------------------------------------------------------------------
  // The ASL context file

  /** A file to attach to the session: its path template, its content and its MIME type. */
  datatype OutputFile = OutputFile(name: string, data: string, mimeType: string)

  const NumVolumes: nat := 40

  /** `xs * n`: `n` copies of `xs`, one after the other. */
  function Repeat<T>(xs: seq<T>, n: nat): (r: seq<T>)
    ensures |r| == n * |xs|
    ensures forall i :: 0 <= i < |r| ==> r[i] == xs[i % |xs|]
  {
    if n == 0 then [] else
      var r := Repeat(xs, n - 1) + xs;
      assert forall i :: (n - 1) * |xs| <= i < |r| ==> i % |xs| == i - (n - 1) * |xs| by {
        forall i | (n - 1) * |xs| <= i < |r| ensures i % |xs| == i - (n - 1) * |xs| {
          ModOfShift(i - (n - 1) * |xs|, n - 1, |xs|);
        }
      }
      r
  }

  lemma {:induction false} ModOfShift(d: nat, q: nat, m: nat)
    requires d < m
    ensures (q * m + d) % m == d
    decreases q
  {
    if q > 0 {
      ModOfShift(d, q - 1, m);
      assert q * m + d == (q - 1) * m + d + m;
      ModPlusDivisor((q - 1) * m + d, m);
    }
  }

  lemma ModPlusDivisor(x: nat, m: int)
    requires m > 0
    ensures (x + m) % m == x % m
  {
    var q, r := x / m, x % m;
    var q', r' := (x + m) / m, (x + m) % m;
    assert m * (q' - q - 1) == r - r';
    MultipleInsideDivisor(m, q' - q - 1);
  }

  lemma MultipleInsideDivisor(m: int, k: int)
    requires m > 0 && -m < m * k < m
    ensures k == 0
  {
    if k >= 1 {
      assert false;
    } else if k <= -1 {
      assert false;
    }
  }

  /** The 80 lines of the context file: `control` and `label` for each of the 40 volumes. */
  const ContextLines: seq<string> := Repeat(["control", "label"], NumVolumes)

  /** The context lines alternate `control` and `label`, and none holds a newline. */
  lemma ContextLinesAlternate()
    ensures |ContextLines| == 80
    ensures forall i :: 0 <= i < 80 ==> ContextLines[i] == (if i % 2 == 0 then "control" else "label")
    ensures forall i :: 0 <= i < 80 ==> '\n' !in ContextLines[i]
  {
    forall i | 0 <= i < 80
      ensures ContextLines[i] == (if i % 2 == 0 then "control" else "label")
    {
      assert ContextLines[i] == ["control", "label"][i % 2];
    }
  }

  /** The context file's name ends like a BIDS ASL context file. */
  lemma ContextNameSuffix()
    ensures EndsWith(Asl.template + "context.tsv", "_aslcontext.tsv")
  {
    var name := Asl.template + "context.tsv";
    assert name[|name| - 15..] == "_aslcontext.tsv";
  }

  /**
   * `AttachToSession`: a tab-separated file whose data, split at newlines, is 80 lines alternating
   * `control` and `label`, starting with `control`; it is stored next to the ASL image, named after it.
   */
  function AttachToSession(): (f: OutputFile)
    ensures |Split(f.data, '\n')| == 2 * NumVolumes == 80
    ensures forall i :: 0 <= i < 80 ==> Split(f.data, '\n')[i] == (if i % 2 == 0 then "control" else "label")
    ensures f.name == Asl.template + "context.tsv" && EndsWith(f.name, "_aslcontext.tsv")
    ensures f.mimeType == "text/tab-separated-values"
  {
    ContextLinesAlternate();
    SplitJoin(ContextLines, '\n');
    ContextNameSuffix();
    OutputFile(Asl.template + "context.tsv", Join("\n", ContextLines), "text/tab-separated-values")
  }

  /** The perfusion directory of a session. */
  const PerfDir := SubjectDir + "{session}/perf/"

  /** `AttachToSession` as written, whose file name drops the "sub-" of the subject entity. */
  function AttachToSessionAsWritten(): (f: OutputFile)
    ensures f.data == AttachToSession().data && f.mimeType == AttachToSession().mimeType
  {
    AttachToSession().(name := PerfDir + "{subject}_{session}_task-rest_aslcontext.tsv")
  }

  /**
   * As written, the context file is not named after the ASL image it belongs to: both sit in the
   * perfusion directory, but the written name lacks the "sub-" prefix of the image's name.
   */
  lemma AsWrittenContextNameLacksSubjectPrefix()
    ensures AttachToSessionAsWritten().name == PerfDir + "{subject}_{session}_task-rest_aslcontext.tsv"
    ensures AttachToSessionAsWritten().name != Asl.template + "context.tsv"
  {
    assert |AttachToSessionAsWritten().name| < |AttachToSession().name|;
  }
}
