/** The web front end: where the Hugging Face token comes from, the sidebar's provider
    settings, the gate that decides whether a report may be analysed, the loop that shows
    each specialist's answer as it completes, and the session state that holds the result. */
module WebApp {
  import opened Wrappers
  import opened Text
  import opened Constants
  import opened Agents
  import opened Coordinator

  // ---------------------------------------------------------------------------------------
  // Secrets and sidebar

  const TokenKey: string := "HUGGINGFACEHUB_API_TOKEN"
  const AltTokenKey: string := "huggingface_token"

  /** How the sidebar starts: with the token from the deployment secrets, in local mode
      (the user enters a key), or with a `TypeError` when the only token secret found is
      empty and the fallback is absent (assigning `None` to the environment). */
  datatype SecretsMode = DeployedMode(token: string) | LocalMode | SecretsFault

  /** The secrets check: `secrets` is the deployment's secrets store, `None` when there is
      none. With either token key present, the token is the first key's value when that is
      present and non-empty, and otherwise the fallback key's value. */
  function ReadSecrets(secrets: Option<map<string, string>>): (r: SecretsMode)
    ensures r.LocalMode? <==> secrets.None? || (TokenKey !in secrets.value && AltTokenKey !in secrets.value)
    ensures r.DeployedMode? && TokenKey in secrets.value && secrets.value[TokenKey] != "" ==>
      r.token == secrets.value[TokenKey]
    ensures r.DeployedMode? && !(TokenKey in secrets.value && secrets.value[TokenKey] != "") ==>
      AltTokenKey in secrets.value && r.token == secrets.value[AltTokenKey]
    ensures r.SecretsFault? <==> secrets.Some? && TokenKey in secrets.value && secrets.value[TokenKey] == ""
                                 && AltTokenKey !in secrets.value
  {
    if secrets.None? || |secrets.value| == 0 then LocalMode
    else
      var m := secrets.value;
      if TokenKey !in m && AltTokenKey !in m then LocalMode
      else
        var token :=
          if TokenKey in m && m[TokenKey] != "" then Some(m[TokenKey])
          else if AltTokenKey in m then Some(m[AltTokenKey])
          else None;
        if token.None? then SecretsFault else DeployedMode(token.value)
  }

  /** The sidebar's outcome: the provider, whether a key was supplied, the model name the
      OpenAI agents are switched to, and the token the agents will find in the environment. */
  datatype Sidebar = Sidebar(useHuggingface: bool, apiKeyValid: bool, modelName: Option<string>, envToken: Option<string>)

  /** The sidebar with the user's inputs: whether the Hugging Face option is picked, the two
      text inputs, the model picked from the OpenAI list, and the token already in the
      environment. The deployed mode uses Hugging Face with the secret token; in local mode
      a key counts only when non-empty, and only a non-empty token reaches the environment. */
  function Configure(mode: SecretsMode, chooseHuggingface: bool, tokenInput: string, apiKeyInput: string,
                     modelChoice: string, envToken: Option<string>): (r: Option<Sidebar>)
    ensures r.None? <==> mode.SecretsFault?
    ensures r.Some? ==> (r.value.useHuggingface <==> mode.DeployedMode? || chooseHuggingface)
    ensures r.Some? ==> (r.value.apiKeyValid <==>
      mode.DeployedMode? || (chooseHuggingface && tokenInput != "") || (!chooseHuggingface && apiKeyInput != ""))
    ensures r.Some? ==> (r.value.modelName.Some? <==> !r.value.useHuggingface)
    ensures r.Some? && mode.LocalMode? && !chooseHuggingface ==> r.value.modelName == Some(modelChoice)
    ensures r.Some? && mode.DeployedMode? ==> r.value.envToken == Some(mode.token)
    ensures r.Some? && mode.LocalMode? && chooseHuggingface && tokenInput != "" ==> r.value.envToken == Some(tokenInput)
    ensures r.Some? && mode.LocalMode? && !(chooseHuggingface && tokenInput != "") ==> r.value.envToken == envToken
  {
    match mode
    case SecretsFault => None
    case DeployedMode(token) => Some(Sidebar(true, true, None, Some(token)))
    case LocalMode =>
      if chooseHuggingface then
        Some(Sidebar(true, tokenInput != "", None, if tokenInput != "" then Some(tokenInput) else envToken))
      else
        Some(Sidebar(false, apiKeyInput != "", Some(modelChoice), envToken))
  }

  // ---------------------------------------------------------------------------------------
  // The validation gate

  /** Whether some word occurs in `text`. */
  function AnyContained(text: string, words: seq<string>): (r: bool)
    ensures r <==> exists k :: 0 <= k < |words| && Contains(text, words[k])
  {
    if words == [] then false
    else if Contains(text, words[0]) then true
    else
      var rest := AnyContained(text, words[1..]);
      assert forall k :: 1 <= k < |words| ==> words[1..][k - 1] == words[k];
      rest
  }

  /** The keyword check: some medical keyword occurs in the lower-cased report. */
  predicate HasMedicalContent(report: string) {
    AnyContained(Lower(report), MedicalKeywords)
  }

  /** The check ignores case: a report containing a keyword written in any mix of upper and
      lower case letters passes it. */
  lemma KeywordAnyCase(report: string, word: string, j: nat, k: nat)
    requires k < |MedicalKeywords| && Lower(word) == MedicalKeywords[k]
    requires OccursAt(report, word, j)
    ensures HasMedicalContent(report)
  {
    var low := Lower(report);
    assert low[j..j + |word|] == Lower(word) by {
      forall i | 0 <= i < |word| ensures low[j..j + |word|][i] == Lower(word)[i] {
        assert report[j..j + |word|][i] == word[i];
      }
    }
    ContainsAt(low, MedicalKeywords[k], j);
  }

  /** What the input tab decides: whether the button is disabled, whether the too-short
      warning and the not-medical error show, and whether analysis starts. */
  datatype Gate = Gate(disabled: bool, tooShortWarning: bool, notMedicalError: bool, start: bool)

  /** Whether analysis starts, given the report, the sidebar's key check and a click. */
  predicate GateStarts(report: string, apiKeyValid: bool, clicked: bool) {
    clicked && report != "" && apiKeyValid
    && !(!HasMedicalContent(report) && |report| > MinReportLengthWarning)
  }

  /** The input tab: the button is disabled for an empty report or a missing key; a short
      report only warns; a report of more than 50 characters with no medical keyword raises
      the error and turns the button's value off. */
  method ValidationGate(report: string, apiKeyValid: bool, clicked: bool) returns (g: Gate)
    ensures g.disabled <==> report == "" || !apiKeyValid
    ensures g.tooShortWarning <==> report != "" && |report| < MinReportLength
    ensures g.notMedicalError <==> report != "" && !HasMedicalContent(report) && |report| > MinReportLengthWarning
    ensures g.start == GateStarts(report, apiKeyValid, clicked)
  {
    var disabled := report == "" || !apiKeyValid;
    // a disabled button reads as not clicked
    var analyzeButton := clicked && !disabled;
    var tooShort := report != "" && |report| < MinReportLength;
    var notMedical := false;
    if report != "" {
      var hasMedicalContent := HasMedicalContent(report);
      if !hasMedicalContent && |report| > MinReportLengthWarning {
        notMedical := true;
        analyzeButton := false;
      }
    }
    var start := analyzeButton && report != "" && apiKeyValid;
    g := Gate(disabled, tooShort, notMedical, start);
  }

  /** Analysis never starts on an empty report or without a key; a report with a medical
      keyword starts on a click however short it is; and so does a keyword-free report of at
      most 50 characters, which the content check lets through. */
  lemma GateDecisions(report: string, apiKeyValid: bool, clicked: bool)
    ensures report == "" || !apiKeyValid || !clicked ==> !GateStarts(report, apiKeyValid, clicked)
    ensures report != "" && apiKeyValid && HasMedicalContent(report) ==> GateStarts(report, apiKeyValid, clicked) == clicked
    ensures report != "" && apiKeyValid && |report| <= MinReportLengthWarning ==> GateStarts(report, apiKeyValid, clicked) == clicked
    ensures GateStarts(report, apiKeyValid, clicked) && |report| > MinReportLengthWarning ==>
      exists k :: 0 <= k < |MedicalKeywords| && Contains(Lower(report), MedicalKeywords[k])
  {
  }

  // ---------------------------------------------------------------------------------------
  // Showing the specialists' answers

  /** A specialist's status badge. */
  datatype Status = Complete | Failed

  /** The text shown in place of a missing answer. */
  function NoResponseText(name: string): string {
    "\U{274C} " + name + " returned no response. Check your API configuration."
  }

  /** The stored text for a unit: its answer, the no-response text for a missing answer, or
      "ERROR: {message}" when its future raised. */
  function Displayed(name: string, outcome: Call<Option<string>>): string {
    match outcome
    case Returned(None) => NoResponseText(name)
    case Returned(Some(text)) => text
    case Raised(m) => "ERROR: " + m
  }

  /** An answer is badged as an error exactly when it contains "ERROR:". */
  function StatusOf(text: string): Status {
    if Contains(text, "ERROR:") then Failed else Complete
  }

  /** The names whose futures returned. */
  function Succeeded(outcome: string -> Call<Option<string>>): set<string> {
    set n | n in ClinicalRoleSet && outcome(n).Returned?
  }

  /** The responses as shown, keyed by the three names. */
  function ShownResponses(outcome: string -> Call<Option<string>>): (r: map<string, string>)
    ensures r.Keys == ClinicalRoleSet
  {
    map n | n in ClinicalRoleSet :: Displayed(n, outcome(n))
  }

  /** The status badges: one per returned unit (a raising unit gets an error message and no
      badge). */
  function Badges(outcome: string -> Call<Option<string>>): (r: map<string, Status>)
    ensures r.Keys == Succeeded(outcome)
  {
    map n | n in Succeeded(outcome) :: StatusOf(Displayed(n, outcome(n)))
  }

  /** What the loop has stored after some units: the responses, the badges and the
      `completed` counter. */
  datatype Tally = Tally(responses: map<string, string>, statuses: map<string, Status>, completed: nat)

  /** The tally after the first `i` units of `order`, one loop step at a time. */
  function TallyPrefix(order: seq<string>, outcome: string -> Call<Option<string>>, i: nat): Tally
    requires i <= |order|
  {
    if i == 0 then Tally(map[], map[], 0)
    else
      var t := TallyPrefix(order, outcome, i - 1);
      var name := order[i - 1];
      var result := outcome(name);
      var text := Displayed(name, result);
      if result.Returned? then
        Tally(t.responses[name := text], t.statuses[name := StatusOf(text)], t.completed + 1)
      else
        Tally(t.responses[name := text], t.statuses, t.completed)
  }

  /** The names among the first `i` units of `order`. */
  function NamesSoFar(order: seq<string>, i: nat): set<string>
    requires i <= |order|
  {
    if i == 0 then {} else NamesSoFar(order, i - 1) + {order[i - 1]}
  }

  /** The names among the first `i` units of `order` whose futures returned. */
  function ReturnedSoFar(order: seq<string>, outcome: string -> Call<Option<string>>, i: nat): set<string>
    requires i <= |order|
  {
    if i == 0 then {}
    else ReturnedSoFar(order, outcome, i - 1) + (if outcome(order[i - 1]).Returned? then {order[i - 1]} else {})
  }

  /** After the first `i` units, the tally holds the shown response of each of them. */
  lemma {:induction false} TallyResponses(order: seq<string>, outcome: string -> Call<Option<string>>, i: nat)
    requires i <= |order|
    ensures var t := TallyPrefix(order, outcome, i);
      && t.responses.Keys == NamesSoFar(order, i)
      && (forall n :: n in t.responses ==> t.responses[n] == Displayed(n, outcome(n)))
  {
    if i > 0 {
      TallyResponses(order, outcome, i - 1);
      var t := TallyPrefix(order, outcome, i - 1);
      var name := order[i - 1];
      assert TallyPrefix(order, outcome, i).responses == t.responses[name := Displayed(name, outcome(name))];
      assert NamesSoFar(order, i) == NamesSoFar(order, i - 1) + {name};
    }
  }

  /** After the first `i` units, the tally holds a badge for each of them that returned. */
  lemma {:induction false} TallyBadges(order: seq<string>, outcome: string -> Call<Option<string>>, i: nat)
    requires i <= |order|
    ensures var t := TallyPrefix(order, outcome, i);
      && t.statuses.Keys == ReturnedSoFar(order, outcome, i)
      && (forall n :: n in t.statuses ==> t.statuses[n] == StatusOf(Displayed(n, outcome(n))))
  {
    if i > 0 {
      TallyBadges(order, outcome, i - 1);
      var t := TallyPrefix(order, outcome, i - 1);
      var name := order[i - 1];
      if outcome(name).Returned? {
        assert TallyPrefix(order, outcome, i).statuses == t.statuses[name := StatusOf(Displayed(name, outcome(name)))];
        assert ReturnedSoFar(order, outcome, i) == ReturnedSoFar(order, outcome, i - 1) + {name};
      } else {
        assert TallyPrefix(order, outcome, i).statuses == t.statuses;
        assert ReturnedSoFar(order, outcome, i) == ReturnedSoFar(order, outcome, i - 1);
      }
    }
  }

  /** The names seen so far are the names of the prefix. */
  lemma {:induction false} NamesSoFarPrefix(order: seq<string>, i: nat)
    requires i <= |order|
    ensures forall n :: n in NamesSoFar(order, i) <==> n in order[..i]
  {
    if i > 0 {
      NamesSoFarPrefix(order, i - 1);
      assert order[..i] == order[..i - 1] + [order[i - 1]];
    }
  }

  /** For an order without repeats, the counter is the number of badges. */
  lemma {:induction false} TallyCount(order: seq<string>, outcome: string -> Call<Option<string>>, i: nat)
    requires i <= |order|
    requires forall a, b :: 0 <= a < b < |order| ==> order[a] != order[b]
    ensures TallyPrefix(order, outcome, i).completed == |ReturnedSoFar(order, outcome, i)|
  {
    if i > 0 {
      TallyCount(order, outcome, i - 1);
      var name := order[i - 1];
      if outcome(name).Returned? {
        ReturnedSoFarNames(order, outcome, i - 1);
        NamesSoFarPrefix(order, i - 1);
        assert name !in NamesSoFar(order, i - 1);
      }
    }
  }

  /** The returned names are among the names seen. */
  lemma {:induction false} ReturnedSoFarNames(order: seq<string>, outcome: string -> Call<Option<string>>, i: nat)
    requires i <= |order|
    ensures ReturnedSoFar(order, outcome, i) <= NamesSoFar(order, i)
  {
    if i > 0 {
      ReturnedSoFarNames(order, outcome, i - 1);
    }
  }

  /** A completion order names the three clinical roles, and the returned ones among them are
      those that succeeded. */
  lemma CompletionNames(order: seq<string>, outcome: string -> Call<Option<string>>)
    requires IsCompletionOrder(order)
    ensures NamesSoFar(order, |order|) == ClinicalRoleSet
    ensures ReturnedSoFar(order, outcome, |order|) == Succeeded(outcome)
  {
    CompletionOrderFacts(order);
    NamesSoFarPrefix(order, |order|);
    assert order[..|order|] == order;
    ReturnedSoFarExactly(order, outcome, |order|);
  }

  /** The returned names so far are the names seen whose futures returned. */
  lemma {:induction false} ReturnedSoFarExactly(order: seq<string>, outcome: string -> Call<Option<string>>, i: nat)
    requires i <= |order|
    ensures forall n :: n in ReturnedSoFar(order, outcome, i) <==> n in NamesSoFar(order, i) && outcome(n).Returned?
  {
    if i > 0 {
      ReturnedSoFarExactly(order, outcome, i - 1);
    }
  }

  /** For a completion order the whole tally is the specified one: the shown responses, the
      badges, and the number of units that returned. */
  lemma TallyComplete(order: seq<string>, outcome: string -> Call<Option<string>>)
    requires IsCompletionOrder(order)
    ensures var t := TallyPrefix(order, outcome, |order|);
      && t.responses == ShownResponses(outcome)
      && t.statuses == Badges(outcome)
      && t.completed == |Succeeded(outcome)|
  {
    TallyResponsesComplete(order, outcome);
    TallyBadgesComplete(order, outcome);
    CompletionNames(order, outcome);
    CompletionOrderFacts(order);
    TallyCount(order, outcome, |order|);
  }

  lemma TallyResponsesComplete(order: seq<string>, outcome: string -> Call<Option<string>>)
    requires IsCompletionOrder(order)
    ensures TallyPrefix(order, outcome, |order|).responses == ShownResponses(outcome)
  {
    CompletionNames(order, outcome);
    TallyResponses(order, outcome, |order|);
    var r := TallyPrefix(order, outcome, |order|).responses;
    var m := ShownResponses(outcome);
    assert r.Keys == m.Keys;
    forall n | n in r ensures r[n] == m[n] {
    }
  }

  lemma TallyBadgesComplete(order: seq<string>, outcome: string -> Call<Option<string>>)
    requires IsCompletionOrder(order)
    ensures TallyPrefix(order, outcome, |order|).statuses == Badges(outcome)
  {
    CompletionNames(order, outcome);
    TallyBadges(order, outcome, |order|);
    var r := TallyPrefix(order, outcome, |order|).statuses;
    var m := Badges(outcome);
    assert r.Keys == m.Keys;
    forall n | n in r ensures r[n] == m[n] {
    }
  }

  /** The `as_completed` loop of the analysis tab: in any completion order it stores the
      shown responses, badges every returned unit, and counts only the returned units. */
  method CollectResponses(order: seq<string>, outcome: string -> Call<Option<string>>)
    returns (responses: map<string, string>, statuses: map<string, Status>, completed: nat)
    requires IsCompletionOrder(order)
    ensures responses == ShownResponses(outcome)
    ensures statuses == Badges(outcome)
    ensures completed == |Succeeded(outcome)|
  {
    responses := map[];
    statuses := map[];
    completed := 0;
    for i := 0 to |order|
      invariant Tally(responses, statuses, completed) == TallyPrefix(order, outcome, i)
    {
      var name := order[i];
      var result := outcome(name);
      var text := Displayed(name, result);
      responses := responses[name := text];
      if result.Returned? {
        completed := completed + 1;
        statuses := statuses[name := StatusOf(text)];
      }
    }
    TallyComplete(order, outcome);
  }

  /** A missing answer is replaced by a text that names the specialist but carries no
      error marker, so it is stored and badged as complete and counted as completed. */
  lemma MissingAnswerShownComplete(outcome: string -> Call<Option<string>>, name: string)
    requires name in ClinicalRoleSet && outcome(name) == Returned(None)
    ensures ShownResponses(outcome)[name] == NoResponseText(name)
    ensures name in Succeeded(outcome)
    ensures Badges(outcome)[name] == Complete
  {
    NoResponseTextUnflagged(name);
  }

  /** The no-response text of a name without a colon carries no "ERROR:" marker. */
  lemma NoResponseTextUnflagged(name: string)
    requires ':' !in name
    ensures !Contains(NoResponseText(name), "ERROR:")
  {
    NoResponseTailLacksColon();
    LacksCharConcat("\U{274C} ", name, " returned no response. Check your API configuration.", ':');
    MissingCharNotContained(NoResponseText(name), "ERROR:", 5);
  }

  lemma NoResponseTailLacksColon()
    ensures ':' !in " returned no response. Check your API configuration."
  {
    LacksColonFirstHalf();
    LacksColonSecondHalf();
    assert " returned no response. Check your API configuration."
        == " returned no response." + " Check your API configuration.";
  }

  lemma LacksColonFirstHalf()
    ensures ':' !in " returned no response."
  {
  }

  lemma LacksColonSecondHalf()
    ensures ':' !in " Check your API configuration."
  {
  }

  lemma LacksCharConcat(a: string, b: string, c: string, x: char)
    requires x !in a && x !in b && x !in c
    ensures forall i :: 0 <= i < |a + b + c| ==> (a + b + c)[i] != x
  {
    assert forall i :: 0 <= i < |a + b + c| ==> (a + b + c)[i] in a || (a + b + c)[i] in b || (a + b + c)[i] in c;
  }

  /** A unit whose future raised is stored as an error text and gets no badge. */
  lemma RaisedUnitStoredAsError(outcome: string -> Call<Option<string>>, name: string)
    requires name in ClinicalRoleSet && outcome(name).Raised?
    ensures ShownResponses(outcome)[name] == "ERROR: " + outcome(name).message
    ensures Contains(ShownResponses(outcome)[name], "ERROR:")
    ensures name !in Badges(outcome)
  {
    var e := "ERROR: " + outcome(name).message;
    assert e[..6] == "ERROR:";
    ContainsPrefix(e, "ERROR:");
  }

  // ---------------------------------------------------------------------------------------
  // The analysis and the session state

  /** The agent as the app builds it: Hugging Face with the default model, or OpenAI with its
      model switched to the sidebar's choice. */
  function AppAgent(a: Agent, sidebar: Sidebar): Agent {
    if !sidebar.useHuggingface && sidebar.modelName.Some? && a.backend.ChatOpenAI? then
      a.(backend := ChatOpenAI(sidebar.modelName.value))
    else a
  }

  function AppOptions(sidebar: Sidebar): Options {
    ProviderOptions(sidebar.useHuggingface, DefaultHfModel)
  }

  /** The app's version of agent `a` uses the provider the sidebar picked: Hugging Face with
      the default model and the environment's token, or OpenAI switched to the sidebar's
      model. Its prompt is that of `a`. */
  predicate AppAgentFits(a: Agent, sidebar: Sidebar) {
    var b := AppAgent(a, sidebar);
    && Prompt(b) == Prompt(a)
    && b.useHuggingface == sidebar.useHuggingface
    && (sidebar.useHuggingface ==> b.backend == InferenceClient(DefaultHfModel, sidebar.envToken))
    && (!sidebar.useHuggingface && sidebar.modelName.Some? ==> b.backend == ChatOpenAI(sidebar.modelName.value))
  }

  /** The specialists and the team alike run on the provider the sidebar picked. */
  lemma AppAgentBackends(name: string, report: string, responses: map<string, string>, sidebar: Sidebar)
    ensures AppAgentFits(SpecialistAgent(name, report, AppOptions(sidebar), sidebar.envToken), sidebar)
    ensures AppAgentFits(SynthesisAgent(responses, AppOptions(sidebar), sidebar.envToken), sidebar)
  {
  }

  /** Each specialist's outcome in the app: its run's text (`run` never raises). */
  function AppOutcomes(report: string, sidebar: Sidebar, hf: HfCall, chat: ChatCall): string -> Call<Option<string>> {
    (name: string) => Returned(Some(AppAnswer(name, report, sidebar, hf, chat)))
  }

  /** The text of one specialist's run in the app. */
  function AppAnswer(name: string, report: string, sidebar: Sidebar, hf: HfCall, chat: ChatCall): string {
    Run(AppAgent(SpecialistAgent(name, report, AppOptions(sidebar), sidebar.envToken), sidebar), hf, chat)
  }

  /** The team's diagnosis from the stored responses, with "No report" for a missing one. */
  function AppDiagnosis(responses: map<string, string>, sidebar: Sidebar, hf: HfCall, chat: ChatCall): string {
    Run(AppAgent(SynthesisAgent(responses, AppOptions(sidebar), sidebar.envToken), sidebar), hf, chat)
  }

  /** The stored diagnosis: the team's text, or "No diagnosis generated" for an empty one. */
  function StoredDiagnosis(d: string): (r: string)
    ensures r != ""
    ensures d != "" ==> r == d
    ensures d == "" ==> r == "No diagnosis generated"
  {
    if d != "" then d else "No diagnosis generated"
  }

  /** The app's `st.session_state`. */
  class Session {
    var analysisComplete: bool
    var responses: map<string, string>
    var finalDiagnosis: string

    /** The state of a new session. */
    constructor()
      ensures !analysisComplete && responses == map[] && finalDiagnosis == ""
      ensures Valid()
    {
      analysisComplete := false;
      responses := map[];
      finalDiagnosis := "";
    }

    /** A complete analysis has a non-empty diagnosis and an answer for each specialist. */
    predicate Valid()
      reads this
    {
      analysisComplete ==> finalDiagnosis != "" && responses.Keys == ClinicalRoleSet
    }

    /** The analysis tab for one script run. When analysis starts, the state is reset; if
        building the agents raises (`setupFails`), it stays reset. Otherwise the specialists'
        shown responses and the stored diagnosis are saved and the analysis is complete. */
    method Analyze(start: bool, report: string, sidebar: Sidebar, order: seq<string>, setupFails: bool,
                   hf: HfCall, chat: ChatCall)
      requires IsCompletionOrder(order)
      requires Valid()
      modifies this
      ensures Valid()
      ensures !start ==> analysisComplete == old(analysisComplete) && responses == old(responses)
                         && finalDiagnosis == old(finalDiagnosis)
      ensures start && setupFails ==> !analysisComplete && responses == map[] && finalDiagnosis == old(finalDiagnosis)
      ensures start && !setupFails ==>
        && analysisComplete
        && responses == ShownResponses(AppOutcomes(report, sidebar, hf, chat))
        && finalDiagnosis == StoredDiagnosis(AppDiagnosis(responses, sidebar, hf, chat))
    {
      if !start {
        return;
      }
      analysisComplete := false;
      responses := map[];
      if setupFails {
        return;
      }
      var shown, statuses, completed := CollectResponses(order, AppOutcomes(report, sidebar, hf, chat));
      var diagnosis := AppDiagnosis(shown, sidebar, hf, chat);
      responses := shown;
      finalDiagnosis := if diagnosis != "" then diagnosis else "No diagnosis generated";
      analysisComplete := true;
    }
  }

  /** In the app every specialist answers, so every unit is counted and badged. */
  lemma AppAnswersAll(report: string, sidebar: Sidebar, hf: HfCall, chat: ChatCall)
    ensures Succeeded(AppOutcomes(report, sidebar, hf, chat)) == ClinicalRoleSet
  {
    var outcome := AppOutcomes(report, sidebar, hf, chat);
    forall n | n in ClinicalRoleSet ensures outcome(n).Returned? {
    }
  }

  /** The app's synthesis prompt carries each specialist's shown answer. */
  lemma AppSynthesisCarriesAnswers(shown: map<string, string>, sidebar: Sidebar)
    requires shown.Keys == ClinicalRoleSet
    ensures var a := AppAgent(SynthesisAgent(shown, AppOptions(sidebar), sidebar.envToken), sidebar);
      && Prompt(a).Success?
      && forall n :: n in ClinicalRoleSet ==> Contains(Prompt(a).value, shown[n])
  {
    var t := SynthesisAgent(shown, AppOptions(sidebar), sidebar.envToken);
    SynthesisPromptCarriesReports(shown, AppOptions(sidebar), sidebar.envToken);
    assert Prompt(AppAgent(t, sidebar)) == Prompt(t);
  }
}
