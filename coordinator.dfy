/** The command-line driver: load a report, choose the provider (or stop when no key is
    set), run the three specialists, collect their answers whatever order they finish in,
    have the multidisciplinary team synthesise a diagnosis, and format the saved text. */
module Coordinator {
  import opened Wrappers
  import opened Text
  import opened Constants
  import opened Agents

  /** The names under which the three specialists are submitted. */
  const ClinicalRoles: seq<string> := [Cardiologist, Psychologist, Pulmonologist]

  const ClinicalRoleSet: set<string> := {Cardiologist, Psychologist, Pulmonologist}

  /** An order in which the three submitted units can complete: any arrangement of the
      three names. */
  predicate IsCompletionOrder(order: seq<string>) {
    multiset(order) == multiset(ClinicalRoles)
  }

  /** A completion order names each clinical role exactly once. */
  lemma CompletionOrderFacts(order: seq<string>)
    requires IsCompletionOrder(order)
    ensures |order| == 3
    ensures forall x :: x in order <==> x in ClinicalRoleSet
    ensures forall a, b :: 0 <= a < b < |order| ==> order[a] != order[b]
  {
    assert |order| == |multiset(order)| == |multiset(ClinicalRoles)| == 3;
    forall x ensures x in order <==> x in ClinicalRoleSet {
      assert x in order <==> x in multiset(order);
      assert x in ClinicalRoles <==> x in multiset(ClinicalRoles);
    }
    assert Cardiologist in order && Psychologist in order && Pulmonologist in order;
  }

  /** What the `responses` dictionary holds for a unit: the text its run returned, or the
      exception message marked as an error under the submitted name. */
  function Recorded(name: string, outcome: Call<string>): string {
    match outcome
    case Returned(text) => text
    case Raised(m) => "ERROR: Exception in " + name + ": " + m
  }

  /** The responses as a function of each unit's outcome alone. */
  function Joined(outcome: string -> Call<string>): (r: map<string, string>)
    ensures r.Keys == ClinicalRoleSet
  {
    map n | n in ClinicalRoleSet :: Recorded(n, outcome(n))
  }

  /** The `as_completed` loop of `run_analysis`, processing the units in the order they
      finish: whatever that order, the result is `Joined(outcome)`, keyed by exactly the
      three clinical names. */
  method RunAnalysis(order: seq<string>, outcome: string -> Call<string>) returns (responses: map<string, string>)
    requires IsCompletionOrder(order)
    ensures responses == Joined(outcome)
    ensures responses.Keys == ClinicalRoleSet
  {
    CompletionOrderFacts(order);
    responses := map[];
    var i := 0;
    while i < |order|
      invariant 0 <= i <= |order|
      invariant responses.Keys == set k | 0 <= k < i :: order[k]
      invariant forall n :: n in responses ==> responses[n] == Recorded(n, outcome(n))
    {
      var name := order[i];
      match outcome(name) {
        case Returned(response) =>
          responses := responses[name := response];
        case Raised(m) =>
          responses := responses[name := "ERROR: Exception in " + name + ": " + m];
      }
      i := i + 1;
    }
    assert responses.Keys == ClinicalRoleSet by {
      forall x ensures x in responses.Keys <==> x in ClinicalRoleSet {
        if x in ClinicalRoleSet {
          assert x in order;
          var k :| 0 <= k < |order| && order[k] == x;
        }
      }
    }
  }

  /** A unit that raises is recorded as an error under its own name, and the others'
      entries are exactly what they would have been had it succeeded. */
  lemma FailureIsolated(outcome: string -> Call<string>, name: string, message: string)
    requires name in ClinicalRoleSet
    ensures var failing := (n: string) => if n == name then Raised(message) else outcome(n);
      && Joined(failing)[name] == "ERROR: Exception in " + name + ": " + message
      && Contains(Joined(failing)[name], "ERROR:")
      && forall n :: n in ClinicalRoleSet && n != name ==> Joined(failing)[n] == Joined(outcome)[n]
  {
    var e := "ERROR: Exception in " + name + ": " + message;
    assert e[..6] == "ERROR:";
    ContainsPrefix(e, "ERROR:");
  }

  /** A unit that succeeds is recorded with exactly the text its agent returned. */
  lemma SuccessRecorded(outcome: string -> Call<string>, name: string)
    requires name in ClinicalRoleSet && outcome(name).Returned?
    ensures Joined(outcome)[name] == outcome(name).value
  {
  }

  /** The agent options for a provider choice: Hugging Face with the given model, or the
      constructors' defaults. */
  function ProviderOptions(useHuggingface: bool, hfModel: string): (o: Options)
    ensures o.useHuggingface == useHuggingface && !o.useOllama
    ensures useHuggingface ==> o.hfModel == hfModel
  {
    if useHuggingface then Options(false, DefaultOllamaModel, true, hfModel) else DefaultOptions
  }

  /** Each specialist's outcome in `run_analysis`: its run's text (`run` never raises). */
  function SpecialistOutcomes(report: string, opts: Options, envToken: Option<string>, hf: HfCall, chat: ChatCall): string -> Call<string> {
    (name: string) => Returned(Run(SpecialistAgent(name, report, opts, envToken), hf, chat))
  }

  /** A specialist's stored report, or "No report" when it is missing. */
  function ReportOrDefault(responses: map<string, string>, name: string): (r: string)
    ensures name in responses ==> r == responses[name]
    ensures name !in responses ==> r == "No report"
  {
    Get(responses, name, "No report")
  }

  /** The team agent `generate_final_diagnosis` builds from the responses. */
  function SynthesisAgent(responses: map<string, string>, opts: Options, envToken: Option<string>): Agent {
    TeamAgent(ReportOrDefault(responses, Cardiologist), ReportOrDefault(responses, Psychologist),
              ReportOrDefault(responses, Pulmonologist), opts, envToken)
  }

  /** `generate_final_diagnosis`: the team agent's run. */
  function FinalDiagnosis(responses: map<string, string>, opts: Options, envToken: Option<string>, hf: HfCall, chat: ChatCall): string {
    Run(SynthesisAgent(responses, opts, envToken), hf, chat)
  }

  /** The synthesis prompt always formats and carries each specialist's report, or
      "No report" for a specialist without one. */
  lemma SynthesisPromptCarriesReports(responses: map<string, string>, opts: Options, envToken: Option<string>)
    ensures var a := SynthesisAgent(responses, opts, envToken);
      && Prompt(a).Success?
      && (forall n :: n in ClinicalRoleSet ==> Contains(Prompt(a).value, ReportOrDefault(responses, n)))
  {
    var a := SynthesisAgent(responses, opts, envToken);
    WellFormedFormattable(a);
    TeamPromptCarriesReports(a, responses);
  }

  /** A team agent whose extra information is the reports-or-defaults carries each of them. */
  lemma TeamPromptCarriesReports(a: Agent, responses: map<string, string>)
    requires Formattable(a) && a.role == Some(MultidisciplinaryTeam)
    requires a.extraInfo == map["cardiologist_report" := ReportOrDefault(responses, Cardiologist),
                                "psychologist_report" := ReportOrDefault(responses, Psychologist),
                                "pulmonologist_report" := ReportOrDefault(responses, Pulmonologist)]
    ensures Prompt(a).Success?
    ensures forall n :: n in ClinicalRoleSet ==> Contains(Prompt(a).value, ReportOrDefault(responses, n))
  {
    PromptCarriesInputs(a);
    CarriesEachReport(Prompt(a).value, responses);
  }

  lemma CarriesEachReport(p: string, responses: map<string, string>)
    requires Contains(p, ReportOrDefault(responses, Cardiologist))
    requires Contains(p, ReportOrDefault(responses, Psychologist))
    requires Contains(p, ReportOrDefault(responses, Pulmonologist))
    ensures forall n :: n in ClinicalRoleSet ==> Contains(p, ReportOrDefault(responses, n))
  {
  }

  /** The heading of the saved diagnosis file. */
  const DiagnosisHeading: string := "### Final Diagnosis:\n\n"

  /** `save_results`' text: the heading, then the diagnosis, from which it can be read back. */
  function SavedText(finalDiagnosis: string): (r: string)
    ensures |r| == |DiagnosisHeading| + |finalDiagnosis|
    ensures r[..|DiagnosisHeading|] == DiagnosisHeading
    ensures r[|DiagnosisHeading|..] == finalDiagnosis
  {
    DiagnosisHeading + finalDiagnosis
  }

  /** The provider decision of `main`. */
  datatype Plan = NoApiKeys | HuggingFacePlan(model: string) | OpenAiPlan

  /** Hugging Face whenever a token is set, even an empty one; otherwise OpenAI when its key
      is set and non-empty; otherwise stop. */
  function ProviderPlan(hfToken: Option<string>, openAiKey: Option<string>): (p: Plan)
    ensures p.HuggingFacePlan? <==> hfToken.Some?
    ensures p.HuggingFacePlan? ==> p.model == DefaultHfModel
    ensures p.NoApiKeys? <==> hfToken.None? && (openAiKey.None? || openAiKey.value == "")
    ensures p.OpenAiPlan? <==> hfToken.None? && openAiKey.Some? && openAiKey.value != ""
  {
    if hfToken.Some? then HuggingFacePlan(DefaultHfModel)
    else if openAiKey.None? || openAiKey.value == "" then NoApiKeys
    else OpenAiPlan
  }

  /** A relative report path names a file under the reports directory; an absolute one
      names itself. */
  function ResolveReportPath(path: string, reportsDir: string): string {
    if |path| > 0 && path[0] == '/' then path else reportsDir + "/" + path
  }

  const EmptyReportMessage: string := "Medical report file is empty"

  /** `load_medical_report` over the readable files `files` (path to content): a missing
      file and a blank file are errors, otherwise the content, unchanged. */
  function LoadMedicalReport(path: string, reportsDir: string, files: map<string, string>): (r: Result<string, string>)
    ensures var p := ResolveReportPath(path, reportsDir);
      && (r.Success? <==> p in files && Strip(files[p]) != "")
      && (r.Success? ==> r.value == files[p])
      && (p !in files ==> r == Failure("Medical report not found: " + p))
      && (p in files && Strip(files[p]) == "" ==> r == Failure(EmptyReportMessage))
  {
    var p := ResolveReportPath(path, reportsDir);
    if p !in files then Failure("Medical report not found: " + p)
    else if Strip(files[p]) == "" then Failure(EmptyReportMessage)
    else Success(files[p])
  }

  /** A loaded report has at least one non-whitespace character, and a file of whitespace
      only is refused. */
  lemma LoadedReportNotBlank(path: string, reportsDir: string, files: map<string, string>)
    ensures var r := LoadMedicalReport(path, reportsDir, files);
      r.Success? ==> exists i :: 0 <= i < |r.value| && !IsSpace(r.value[i])
    ensures var p := ResolveReportPath(path, reportsDir);
      p in files && (forall i :: 0 <= i < |files[p]| ==> IsSpace(files[p][i])) ==>
        LoadMedicalReport(path, reportsDir, files) == Failure(EmptyReportMessage)
  {
    var p := ResolveReportPath(path, reportsDir);
    if p in files {
      StripSpec(files[p]);
    }
  }

  /** How `main` ends: it exits with the first line it prints, or it completes with the
      saved text and the diagnosis. */
  datatype MainOutcome = Exit(message: string) | Completed(savedText: string, finalDiagnosis: string)

  function NoReportsMessage(reportsDir: string): string {
    "Error: No medical reports found in " + reportsDir
  }

  const NoApiKeysMessage: string := "Error: No API keys found."

  /** `main`: take the first report file, load it, choose the provider, then run the
      specialists (in the completion order `order`), the team, and format the saved text.
      Every way of stopping early is decided before any backend is called. */
  method RunMain(reportFiles: seq<string>, reportsDir: string, files: map<string, string>,
                 hfToken: Option<string>, openAiKey: Option<string>,
                 order: seq<string>, hf: HfCall, chat: ChatCall) returns (outcome: MainOutcome)
    requires IsCompletionOrder(order)
    ensures reportFiles == [] ==> outcome == Exit(NoReportsMessage(reportsDir))
    ensures reportFiles != [] && LoadMedicalReport(reportFiles[0], reportsDir, files).Failure? ==>
      outcome == Exit("Error: " + LoadMedicalReport(reportFiles[0], reportsDir, files).error)
    ensures (reportFiles != [] && LoadMedicalReport(reportFiles[0], reportsDir, files).Success?
             && ProviderPlan(hfToken, openAiKey).NoApiKeys?) ==> outcome == Exit(NoApiKeysMessage)
    ensures outcome.Completed? <==>
      reportFiles != [] && LoadMedicalReport(reportFiles[0], reportsDir, files).Success?
      && !ProviderPlan(hfToken, openAiKey).NoApiKeys?
    ensures outcome.Completed? ==>
      var report := LoadMedicalReport(reportFiles[0], reportsDir, files).value;
      var opts := ProviderOptions(hfToken.Some?, DefaultHfModel);
      var responses := Joined(SpecialistOutcomes(report, opts, hfToken, hf, chat));
      && outcome.finalDiagnosis == FinalDiagnosis(responses, opts, hfToken, hf, chat)
      && outcome.savedText == SavedText(outcome.finalDiagnosis)
  {
    if reportFiles == [] {
      return Exit(NoReportsMessage(reportsDir));
    }
    var loaded := LoadMedicalReport(reportFiles[0], reportsDir, files);
    if loaded.Failure? {
      return Exit("Error: " + loaded.error);
    }
    var plan := ProviderPlan(hfToken, openAiKey);
    if plan.NoApiKeys? {
      return Exit(NoApiKeysMessage);
    }
    var useHuggingface := plan.HuggingFacePlan?;
    var opts := ProviderOptions(useHuggingface, DefaultHfModel);
    var responses := RunAnalysis(order, SpecialistOutcomes(loaded.value, opts, hfToken, hf, chat));
    var diagnosis := FinalDiagnosis(responses, opts, hfToken, hf, chat);
    outcome := Completed(SavedText(diagnosis), diagnosis);
  }
}
