/** The diagnostic agents: construction (which backend an agent talks to), prompt building
    (which template and which inputs), and one run, which asks the backend for an answer and
    turns every failure into an "ERROR: ..." text instead of raising. The backends themselves
    are parameters: each call either returns a reply or raises with a message. */
module Agents {
  import opened Wrappers
  import opened Text
  import opened Constants
  import opened Prompts
  import opened Sanitizer

  /** The client an agent talks to, with the model it names. */
  datatype Backend =
    | InferenceClient(model: string, token: Option<string>)
    | ChatOllama(model: string)
    | ChatOpenAI(model: string)

  /** The keyword options every agent constructor takes. */
  datatype Options = Options(useOllama: bool, ollamaModel: string, useHuggingface: bool, hfModel: string)

  /** The constructors' defaults: OpenAI, with the default model names. */
  const DefaultOptions: Options := Options(false, DefaultOllamaModel, false, DefaultHfModel)

  /** An agent; its fields are fixed once it is built. */
  datatype Agent = Agent(
    medicalReport: Option<string>,
    role: Option<string>,
    extraInfo: map<string, string>,
    useOllama: bool,
    useHuggingface: bool,
    ollamaModel: string,
    hfModel: string,
    template: Template,
    backend: Backend,
    isHf: bool)

  /** The template an agent holds is the one its role selects. */
  predicate WellFormed(a: Agent) {
    a.template == TemplateFor(a.role)
  }

  /** The agent's template asks for exactly the inputs its role is formatted with. */
  predicate Formattable(a: Agent) {
    Slots(a.template) == RoleSlots(a.role)
  }

  /** Every agent `__init__` builds can be formatted. */
  lemma WellFormedFormattable(a: Agent)
    requires WellFormed(a)
    ensures Formattable(a)
  {
    TemplateSlotsByRole(a.role);
  }

  /** `Agent.__init__`: the fields are copied, a missing `extra_info` becomes the empty map,
      the template is chosen by role, and the backend is Hugging Face if asked for, else
      Ollama if asked for, else OpenAI; the Hugging Face client carries the token found in
      the environment, `envToken`. */
  function NewAgent(medicalReport: Option<string>, role: Option<string>, extraInfo: Option<map<string, string>>,
                    opts: Options, envToken: Option<string>): (a: Agent)
    ensures WellFormed(a)
    ensures a.medicalReport == medicalReport && a.role == role
    ensures a.extraInfo == (if extraInfo.Some? then extraInfo.value else map[])
    ensures a.useOllama == opts.useOllama && a.useHuggingface == opts.useHuggingface
    ensures a.ollamaModel == opts.ollamaModel && a.hfModel == opts.hfModel
    ensures a.isHf <==> opts.useHuggingface
    ensures a.backend.InferenceClient? <==> opts.useHuggingface
    ensures a.backend.ChatOllama? <==> !opts.useHuggingface && opts.useOllama
    ensures a.backend.ChatOpenAI? <==> !opts.useHuggingface && !opts.useOllama
    ensures a.backend.InferenceClient? ==> a.backend == InferenceClient(opts.hfModel, envToken)
    ensures a.backend.ChatOllama? ==> a.backend.model == opts.ollamaModel
    ensures a.backend.ChatOpenAI? ==> a.backend.model == DefaultOpenAiModel
  {
    var backend :=
      if opts.useHuggingface then InferenceClient(opts.hfModel, envToken)
      else if opts.useOllama then ChatOllama(opts.ollamaModel)
      else ChatOpenAI(DefaultOpenAiModel);
    Agent(medicalReport, role, extraInfo.GetOr(map[]), opts.useOllama, opts.useHuggingface,
          opts.ollamaModel, opts.hfModel, TemplateFor(role), backend, opts.useHuggingface)
  }

  /** The `Cardiologist` agent: the report and the cardiologist role, no extra information. */
  function CardiologistAgent(report: string, opts: Options, envToken: Option<string>): (a: Agent)
    ensures WellFormed(a) && a.role == Some(Cardiologist) && a.medicalReport == Some(report)
    ensures a.extraInfo == map[] && a.useHuggingface == opts.useHuggingface
  {
    NewAgent(Some(report), Some(Cardiologist), None, opts, envToken)
  }

  /** The `Psychologist` agent. */
  function PsychologistAgent(report: string, opts: Options, envToken: Option<string>): (a: Agent)
    ensures WellFormed(a) && a.role == Some(Psychologist) && a.medicalReport == Some(report)
    ensures a.extraInfo == map[] && a.useHuggingface == opts.useHuggingface
  {
    NewAgent(Some(report), Some(Psychologist), None, opts, envToken)
  }

  /** The `Pulmonologist` agent. */
  function PulmonologistAgent(report: string, opts: Options, envToken: Option<string>): (a: Agent)
    ensures WellFormed(a) && a.role == Some(Pulmonologist) && a.medicalReport == Some(report)
    ensures a.extraInfo == map[] && a.useHuggingface == opts.useHuggingface
  {
    NewAgent(Some(report), Some(Pulmonologist), None, opts, envToken)
  }

  /** The `MultidisciplinaryTeam` agent: no report of its own, the three specialist reports
      as extra information. */
  function TeamAgent(cardiologistReport: string, psychologistReport: string, pulmonologistReport: string,
                     opts: Options, envToken: Option<string>): (a: Agent)
    ensures WellFormed(a) && a.role == Some(MultidisciplinaryTeam) && a.medicalReport == None
    ensures a.extraInfo == map["cardiologist_report" := cardiologistReport,
                               "psychologist_report" := psychologistReport,
                               "pulmonologist_report" := pulmonologistReport]
    ensures a.useHuggingface == opts.useHuggingface
  {
    var info := map["cardiologist_report" := cardiologistReport,
                    "psychologist_report" := psychologistReport,
                    "pulmonologist_report" := pulmonologistReport];
    NewAgent(None, Some(MultidisciplinaryTeam), Some(info), opts, envToken)
  }

  /** The agent for one of the three clinical names. */
  function SpecialistAgent(name: string, report: string, opts: Options, envToken: Option<string>): Agent {
    if name == Psychologist then PsychologistAgent(report, opts, envToken)
    else if name == Pulmonologist then PulmonologistAgent(report, opts, envToken)
    else CardiologistAgent(report, opts, envToken)
  }

  /** Python's `str()` of an optional text. */
  function Shown(s: Option<string>): string {
    if s.Some? then s.value else "None"
  }

  /** `d.get(key, default)`. */
  function Get(d: map<string, string>, key: string, default: string): string {
    if key in d then d[key] else default
  }

  /** The arguments `run` formats the template with: the three reports from the extra
      information (each defaulting to the empty text) for the team, and the medical report
      (as Python prints it) for every other role. */
  function PromptArgs(a: Agent): map<string, string> {
    if a.role == Some(MultidisciplinaryTeam) then
      map["cardiologist_report" := Get(a.extraInfo, "cardiologist_report", ""),
          "psychologist_report" := Get(a.extraInfo, "psychologist_report", ""),
          "pulmonologist_report" := Get(a.extraInfo, "pulmonologist_report", "")]
    else
      map["medical_report" := Shown(a.medicalReport)]
  }

  /** The formatted prompt, or the name of the placeholder formatting could not fill. */
  function Prompt(a: Agent): Result<string, string> {
    Render(a.template, PromptArgs(a))
  }

  /** The prompt of a well-formed agent always formats, and it carries the agent's inputs:
      the three reports for the team, the medical report for every other role. */
  lemma PromptCarriesInputs(a: Agent)
    requires Formattable(a)
    ensures Prompt(a).Success?
    ensures a.role == Some(MultidisciplinaryTeam) ==>
      && Contains(Prompt(a).value, Get(a.extraInfo, "cardiologist_report", ""))
      && Contains(Prompt(a).value, Get(a.extraInfo, "psychologist_report", ""))
      && Contains(Prompt(a).value, Get(a.extraInfo, "pulmonologist_report", ""))
    ensures a.role != Some(MultidisciplinaryTeam) ==> Contains(Prompt(a).value, Shown(a.medicalReport))
  {
    RenderShowsParts(a.template, PromptArgs(a));
    if a.role == Some(MultidisciplinaryTeam) {
      assert "cardiologist_report" in Slots(a.template);
      assert "psychologist_report" in Slots(a.template);
      assert "pulmonologist_report" in Slots(a.template);
    } else {
      assert "medical_report" in Slots(a.template);
    }
  }

  /** The shapes a Hugging Face chat completion can come back in: an object with a `choices`
      attribute (each choice with its message content, which may be missing; `isDict` when the
      object is also a dictionary holding the same "choices" entry, as the client library's
      output classes are), a plain dictionary with or without a "choices" entry (each entry's
      message content), or anything else. `shown` is the response as `str()` prints it. */
  datatype HfResponse =
    | CompletionOutput(contents: seq<Option<string>>, isDict: bool, shown: string)
    | Mapping(choices: Option<seq<string>>, shown: string)
    | Unrecognised(shown: string)

  /** The message of the `IndexError` raised by indexing an empty list. */
  const IndexErrorMessage: string := "list index out of range"

  /** The message of the `AttributeError` raised by splitting a missing content. */
  const NoneSplitMessage: string := "'NoneType' object has no attribute 'split'"

  /** The text of a Hugging Face response: the first choice's content when the `choices`
      attribute is non-empty; otherwise, for a dictionary with a "choices" entry, its first
      entry's content (an empty list raises); otherwise the printed response. */
  function ExtractContent(resp: HfResponse): (r: Result<Option<string>, string>)
    ensures r.Failure? <==>
      || (resp.Mapping? && resp.choices == Some([]))
      || (resp.CompletionOutput? && resp.contents == [] && resp.isDict)
    ensures r.Failure? ==> r.error == IndexErrorMessage
    ensures resp.CompletionOutput? && |resp.contents| > 0 ==> r == Success(resp.contents[0])
    ensures resp.Mapping? && resp.choices.Some? && |resp.choices.value| > 0 ==> r == Success(Some(resp.choices.value[0]))
    ensures r.Success? && r.value.None? ==> resp.CompletionOutput? && |resp.contents| > 0
    ensures (resp.CompletionOutput? && |resp.contents| == 0 && !resp.isDict) || (resp.Mapping? && resp.choices.None?) || resp.Unrecognised?
      ==> r == Success(Some(resp.shown))
  {
    match resp
    case CompletionOutput(contents, isDict, shown) =>
      if |contents| > 0 then Success(contents[0])
      else if isDict then Failure(IndexErrorMessage)
      else Success(Some(shown))
    case Mapping(choices, shown) =>
      if choices.None? then Success(Some(shown))
      else if |choices.value| > 0 then Success(Some(choices.value[0]))
      else Failure(IndexErrorMessage)
    case Unrecognised(shown) => Success(Some(shown))
  }

  /** A LangChain chat reply: a message with a `content` attribute, or something else,
      shown as `str()` prints it. */
  datatype ChatReply = WithContent(content: string) | WithoutContent(shown: string)

  /** The Hugging Face backend, called with the client and the prompt. */
  type HfCall = (Backend, string) -> Call<HfResponse>

  /** The LangChain backend (`invoke`), called with the client and the prompt. */
  type ChatCall = (Backend, string) -> Call<ChatReply>

  /** `_run_huggingface`: the extracted content, sanitized. */
  function RunHuggingface(backend: Backend, prompt: string, hf: HfCall): Call<string> {
    match hf(backend, prompt)
    case Raised(m) => Raised(m)
    case Returned(resp) =>
      match ExtractContent(resp)
      case Failure(m) => Raised(m)
      case Success(None) => Raised(NoneSplitMessage)
      case Success(Some(content)) => Returned(Sanitize(content))
  }

  /** `_run_standard`: the reply's content when it has one, else the printed reply; nothing
      is sanitized. */
  function RunStandard(backend: Backend, prompt: string, chat: ChatCall): Call<string> {
    match chat(backend, prompt)
    case Raised(m) => Raised(m)
    case Returned(WithContent(c)) => Returned(c)
    case Returned(WithoutContent(shown)) => Returned(shown)
  }

  /** The text `run` returns in place of an exception. */
  function ErrorText(role: Option<string>, message: string): string {
    "ERROR: Error in " + Shown(role) + ": " + message
  }

  /** `Agent.run`: format the prompt, call the Hugging Face path or the standard path, and
      return "ERROR: Error in {role}: {message}" for any exception on the way (a `KeyError`
      prints as the quoted key). */
  function Run(a: Agent, hf: HfCall, chat: ChatCall): string {
    match Prompt(a)
    case Failure(key) => ErrorText(a.role, "'" + key + "'")
    case Success(prompt) =>
      var outcome := if a.useHuggingface then RunHuggingface(a.backend, prompt, hf)
                     else RunStandard(a.backend, prompt, chat);
      match outcome
      case Returned(text) => text
      case Raised(m) => ErrorText(a.role, m)
  }

  /** An error text starts with "ERROR: " and so is recognised by the "ERROR:" substring test
      of the callers. */
  lemma ErrorTextFlagged(role: Option<string>, message: string)
    ensures |ErrorText(role, message)| >= 7 && ErrorText(role, message)[..7] == "ERROR: "
    ensures Contains(ErrorText(role, message), "ERROR:")
  {
    var e := ErrorText(role, message);
    assert e[..7] == "ERROR: ";
    assert e[..6] == "ERROR:";
    ContainsPrefix(e, "ERROR:");
  }

  /** A failing backend never escapes `run`: whichever path is taken and however the call
      fails, the result is the flagged error text for the agent's role. */
  lemma RunSoftFailure(a: Agent, hf: HfCall, chat: ChatCall)
    requires Formattable(a)
    ensures Prompt(a).Success?
    ensures a.useHuggingface && RunHuggingface(a.backend, Prompt(a).value, hf).Raised? ==>
      Run(a, hf, chat) == ErrorText(a.role, RunHuggingface(a.backend, Prompt(a).value, hf).message)
      && Contains(Run(a, hf, chat), "ERROR:")
    ensures !a.useHuggingface && chat(a.backend, Prompt(a).value).Raised? ==>
      Run(a, hf, chat) == ErrorText(a.role, chat(a.backend, Prompt(a).value).message)
      && Contains(Run(a, hf, chat), "ERROR:")
  {
    PromptCarriesInputs(a);
    var p := Prompt(a).value;
    if a.useHuggingface {
      var outcome := RunHuggingface(a.backend, p, hf);
      if outcome.Raised? {
        assert Run(a, hf, chat) == ErrorText(a.role, outcome.message);
        ErrorTextFlagged(a.role, outcome.message);
      }
    } else {
      var outcome := chat(a.backend, p);
      if outcome.Raised? {
        assert RunStandard(a.backend, p, chat) == Raised(outcome.message);
        assert Run(a, hf, chat) == ErrorText(a.role, outcome.message);
        ErrorTextFlagged(a.role, outcome.message);
      }
    }
  }

  /** A prompt that cannot be formatted ends `run` before either backend is called: the
      result is the flagged error text quoting the missing key, whatever the backends do. */
  lemma RunFormatFailure(a: Agent, hf: HfCall, chat: ChatCall)
    requires Prompt(a).Failure?
    ensures Run(a, hf, chat) == ErrorText(a.role, "'" + Prompt(a).error + "'")
    ensures Contains(Run(a, hf, chat), "ERROR:")
    ensures forall hf': HfCall, chat': ChatCall :: Run(a, hf', chat') == Run(a, hf, chat)
  {
    ErrorTextFlagged(a.role, "'" + Prompt(a).error + "'");
  }

  /** On the Hugging Face path a response with content is returned sanitized; on the
      standard path the reply is returned as it came. */
  lemma RunPaths(a: Agent, hf: HfCall, chat: ChatCall)
    requires Formattable(a)
    ensures Prompt(a).Success?
    ensures a.useHuggingface && hf(a.backend, Prompt(a).value).Returned? ==>
      var content := ExtractContent(hf(a.backend, Prompt(a).value).value);
      content.Success? && content.value.Some? ==> Run(a, hf, chat) == Sanitize(content.value.value)
    ensures !a.useHuggingface && chat(a.backend, Prompt(a).value).Returned? ==>
      var reply := chat(a.backend, Prompt(a).value).value;
      Run(a, hf, chat) == (if reply.WithContent? then reply.content else reply.shown)
  {
    PromptCarriesInputs(a);
  }
}
