# AI Medical Diagnostics — a Dafny model of its deterministic core

AI Medical Diagnostics sends a patient's medical report to three specialist agents: a
cardiologist, a psychologist and a pulmonologist. Each one is an LLM prompt. A multidisciplinary
team agent then combines their three answers into a final diagnosis. The system has two front
ends. A command-line driver (`Main.py`) takes the first report file and saves the
diagnosis. A Streamlit web app (`app.py`) checks the report before it is analysed and shows
each specialist's answer as it arrives.

This project models the deterministic logic around the LLM calls and proves properties of it:

* `text.dfy` (module `Text`) — the Python string operations the code relies on: `strip`,
  `split('\n')` and `'\n'.join`, substring `in`, non-overlapping `count`, `split(p)[0]`, and
  `lower`.
* `sanitizer.dfy` (module `Sanitizer`) — `Agent._clean_response`. The method
  `CleanResponse` keeps the source's loop with `prev_line` and `repetition_count`, and is
  proved equal to the specification `Sanitize`. `Sanitize` de-duplicates runs of lines whose
  stripped forms are equal, then truncates a long text that repeats "However, given". The
  lemmas about `Sanitize` cover:
  * the output lines are a subsequence of the input lines;
  * first and changed lines are kept;
  * a run keeps min(n, 2) lines;
  * the de-duplication step is idempotent;
  * unchanged inputs are returned as they are;
  * truncation removes the marker.
* `prompts.dfy` (module `Prompts`) — the four LangChain prompt templates as literal text and
  `{slot}` placeholders. Formatting raises `KeyError` (here: fails with the slot name) for a
  missing argument. The module also covers role→template selection with the cardiologist
  fallback.
* `agents.dfy` (module `Agents`) — the `Agent` constructors (provider precedence: Hugging
  Face, then Ollama, then OpenAI), prompt input selection per role, the decision table that
  extracts the content of a Hugging Face response, and `run`, which turns every exception
  into `"ERROR: Error in {role}: {message}"`.
* `coordinator.dfy` (module `Coordinator`) — `Main.py`:
  * report loading;
  * provider selection with fail-fast;
  * the `as_completed` fan-in loop (`RunAnalysis`), proved to give the same dictionary
    for every completion order;
  * the `"No report"` defaults of the synthesis step;
  * the saved text;
  * `main` as a whole (`RunMain`).
* `webapp.dfy` (module `WebApp`) — `app.py`:
  * the secrets token precedence and the sidebar;
  * the validation gate (length warning, case-insensitive keyword check, button disabling);
  * the response-classification loop (`CollectResponses`: a missing answer becomes a
    message, an "ERROR:" substring makes the badge an error, a raising future becomes
    `"ERROR: {msg}"`);
  * the session state (`Session`) that the analysis tab resets and then fills.

The LLM backends are parameters. Each is a function from the client and the prompt to
`Returned(reply)` or `Raised(message)`. The thread pool's completion order is a parameter
too: any arrangement of the three specialist names.

Where the code and its documentation disagree, the model follows the code:

* Hugging Face is chosen in `main` when its token is set at all, even to the empty string.
* In the app, a keyword-free report of at most 50 characters passes the content check.
* A specialist that answered `None` is badged "Complete", not as an error.
* A deployment secret `HUGGINGFACEHUB_API_TOKEN` that is empty, with no
  `huggingface_token` fallback, makes the sidebar raise (`SecretsFault`).

## Model

| member | source | states |
|---|---|---|
| Text.StripSpec | Utils/Agents.py:234 | `strip()` is empty iff the text is all whitespace; otherwise it starts and ends with a non-whitespace character; it is the text with a whitespace-only prefix and a whitespace-only suffix removed, and nothing else |
| Text.SplitLines | Utils/Agents.py:228 | `split('\n')` gives at least one piece (`""` gives `[""]`), no piece holds a newline, and joining the pieces with `'\n'` gives back the text |
| Text.SplitJoinLines | Utils/Agents.py:228-244 | splitting the join of newline-free lines gives back the same lines |
| Text.JoinLines | Utils/Agents.py:244 | `'\n'.join`; its contract is the round trip with `split('\n')`, proved in `Text.SplitLines` (joining the pieces gives back the text) and `Text.SplitJoinLines` (splitting the join of newline-free lines gives back the lines) |
| Text.Contains | Main.py:116 | `p in s` holds iff `p` occurs in `s` at some index |
| Text.Count | Utils/Agents.py:247 | for a non-empty pattern, the count is the largest number of non-overlapping occurrences: a list of that many increasing, non-overlapping occurrence positions exists, and no such list is longer; it is positive iff the pattern occurs, and the occurrences fit in the text; an empty pattern counts `len(s) + 1` |
| Text.PrefixBefore | Utils/Agents.py:248-249 | `split(p)[0]` is a prefix of the text without `p`, ending where the first occurrence of `p` starts, or the whole text when `p` does not occur; no occurrence of `p` in the text starts inside it |
| Text.Lower | app.py:320 | `lower()` keeps the length and lower-cases each character (ASCII letters) |
| Sanitizer.CleanResponse | Utils/Agents.py:217-252 | the loop over the lines with `prev_line` and `repetition_count`, then the truncation check, computes exactly `Sanitize(content)` |
| Sanitizer.TruncationApplies | Utils/Agents.py:247 | the truncation condition: over 2000 characters and more than two "However, given"; its effect is stated by `Sanitizer.Truncate` |
| Sanitizer.Truncate | Utils/Agents.py:246-250 | a text over 2000 characters with more than two "However, given" becomes the prefix before the first marker followed by the truncation notice, and no marker starts before the cut; any other text is unchanged |
| Sanitizer.Dedup | Utils/Agents.py:233-242 | the line-level de-duplication; what it keeps is proved in `Sanitizer.DedupPrefixSelects`, `Sanitizer.DedupIsSubsequence`, `Sanitizer.RunKeepsFirstTwo` and `Sanitizer.DedupIdempotent` |
| Sanitizer.Sanitize | Utils/Agents.py:217-252 | the whole sanitizer as split, de-duplicate, join and truncate; the source's loop is proved to compute it in `Sanitizer.CleanResponse`, and its properties in `Sanitizer.SanitizeUnchanged`, `Sanitizer.SanitizedRunsBounded`, `Sanitizer.SanitizeEmptyIff` and `Sanitizer.TruncatedHasNoMarker` |
| Sanitizer.DedupPrefixSelects | Utils/Agents.py:233-242 | the kept lines are exactly the input lines at the kept indices, unaltered and in increasing order, and an index is kept iff its line is among the first two of its run |
| Sanitizer.DedupIsSubsequence | Utils/Agents.py:228-244 | the de-duplicated lines are a subsequence of the split lines, byte-identical (not stripped) and in the original order |
| Sanitizer.FirstLineKept | Utils/Agents.py:230-242 | the first line is always kept, because `prev_line` starts as `None` |
| Sanitizer.ChangedLineKept | Utils/Agents.py:235-242 | a line whose stripped form differs from the previous line's is kept, at its place in the output |
| Sanitizer.KeptLinePosition | Utils/Agents.py:233-242 | a kept line appears in the output right after the lines kept before it |
| Sanitizer.RunIndexInRun | Utils/Agents.py:235-240 | within a run of equal stripped forms, `repetition_count` for the j-th line is its distance from the run's start |
| Sanitizer.RunKeepsFirstTwo | Utils/Agents.py:233-242 | a run of n lines with equal stripped forms contributes exactly its first min(n, 2) lines |
| Sanitizer.RepeatedLineCollapses | Utils/Agents.py:233-242 | n copies of one line de-duplicate to min(n, 2) copies |
| Sanitizer.ShortRunsUnchanged | Utils/Agents.py:233-244 | lines with no run longer than two are left unchanged by de-duplication |
| Sanitizer.DistinctNeighboursUnchanged | Utils/Agents.py:233-244 | lines whose adjacent stripped forms all differ are left unchanged by de-duplication |
| Sanitizer.DedupPrefixState | Utils/Agents.py:233-242 | after each step, the last kept line has the current stripped form, its run position in the output is the input's capped at one, and no output line is third in a run |
| Sanitizer.DedupOutputKept | Utils/Agents.py:233-244 | no line of the de-duplicated output is the third or later of a run |
| Sanitizer.DedupIdempotent | Utils/Agents.py:233-244 | de-duplicating the de-duplicated lines changes nothing |
| Sanitizer.DedupLinesWellFormed | Utils/Agents.py:228-244 | the de-duplicated lines are at least one and hold no newline |
| Sanitizer.SanitizeUnchanged | Utils/Agents.py:228-252 | a response whose adjacent lines all differ after stripping, and to which truncation does not apply, is returned exactly as it came |
| Sanitizer.SanitizedRunsBounded | Utils/Agents.py:228-252 | when no truncation happens, the sanitized text, split into lines again, has no run of more than two equal stripped lines |
| Sanitizer.RepeatedLinesSanitized | Utils/Agents.py:228-252 | n ≥ 2 copies of a newline-free line (fifty, say) sanitize to exactly two copies joined by a newline, whenever those two copies are not long and repetitive enough to be truncated |
| Sanitizer.TruncatedHasNoMarker | Utils/Agents.py:246-250 | a truncated response no longer contains "However, given" |
| Sanitizer.NoticeLacksMarker | Utils/Agents.py:249 | the truncation notice does not contain the marker |
| Sanitizer.SanitizeEmptyIff | Utils/Agents.py:228-252 | the sanitized text is empty iff the response is empty |
| Prompts.Render | Utils/Agents.py:155-161 | formatting succeeds iff every placeholder has an argument, and otherwise fails naming a placeholder that has none |
| Prompts.RenderShowsParts | Utils/Agents.py:155-161 | a formatted prompt contains every substituted argument and every piece of the template's literal text |
| Prompts.TemplateFor | Utils/Agents.py:94-141 | the role-to-template table; its placeholders per role are proved in `Prompts.TemplateSlotsByRole` and its fallback in `Prompts.TemplateFallback` |
| Prompts.TemplateSlotsByRole | Utils/Agents.py:101-141 | the team template's placeholders are exactly the three report names; every other role's template has only `medical_report` |
| Prompts.TeamTemplateSlots | Utils/Agents.py:102-111 | the team template asks for `cardiologist_report`, `psychologist_report` and `pulmonologist_report` |
| Prompts.CardiologistTemplateSlots | Utils/Agents.py:115-122 | the cardiologist template asks for `medical_report` alone |
| Prompts.PsychologistTemplateSlots | Utils/Agents.py:123-130 | the psychologist template asks for `medical_report` alone |
| Prompts.PulmonologistTemplateSlots | Utils/Agents.py:131-138 | the pulmonologist template asks for `medical_report` alone |
| Prompts.TemplateFallback | Utils/Agents.py:114-140 | a role other than the three clinical roles and the team (or no role) gets the cardiologist template, and the three clinical roles get three different templates |
| Agents.NewAgent | Utils/Agents.py:40-92 | the fields are copied, a missing `extra_info` becomes `{}`, the template matches the role, and the client is Hugging Face iff asked for (with the model and the environment token), else Ollama iff asked for, else OpenAI with the default model |
| Agents.CardiologistAgent | Utils/Agents.py:256-289 | the cardiologist agent has the report, the cardiologist role and no extra information |
| Agents.PsychologistAgent | Utils/Agents.py:292-326 | the psychologist agent has the report, the psychologist role and no extra information |
| Agents.PulmonologistAgent | Utils/Agents.py:328-361 | the pulmonologist agent has the report, the pulmonologist role and no extra information |
| Agents.TeamAgent | Utils/Agents.py:364-406 | the team agent has no report of its own and holds the three specialist reports as its extra information |
| Agents.WellFormedFormattable | Utils/Agents.py:71 | the template an agent is built with asks for exactly the inputs its role is formatted with |
| Agents.PromptCarriesInputs | Utils/Agents.py:152-161 | a constructed agent's prompt always formats; the team's carries the three reports from `extra_info` (each defaulting to `''`), and every other role's carries the medical report as `str()` shows it |
| Agents.ExtractContent | Utils/Agents.py:190-196 | a non-empty `choices` attribute gives the first choice's content; otherwise a dict with a `'choices'` key gives its first content, and an empty list raises `IndexError` (also for a completion object with empty `choices` that is itself a dict); otherwise `str(response)` |
| Agents.RunHuggingface | Utils/Agents.py:173-199 | `_run_huggingface`: the extracted content, sanitized; a failed extraction or a missing content raises; proved in `Agents.RunPaths` and `Agents.RunSoftFailure` |
| Agents.RunStandard | Utils/Agents.py:201-215 | `_run_standard`: the reply's `content`, or `str(reply)`, unsanitized; proved in `Agents.RunPaths` and `Agents.RunSoftFailure` |
| Agents.Run | Utils/Agents.py:143-171 | `run`: format, dispatch on the provider, turn any exception into the error text; proved in `Agents.RunFormatFailure`, `Agents.RunSoftFailure` and `Agents.RunPaths` |
| Agents.RunFormatFailure | Utils/Agents.py:155-171 | a prompt that cannot be formatted yields "ERROR: Error in {role}: '{key}'", flagged with "ERROR:", whatever the backends would do |
| Agents.ErrorTextFlagged | Utils/Agents.py:168-171 | an error text starts with "ERROR: " and so contains "ERROR:" |
| Agents.RunSoftFailure | Utils/Agents.py:143-171 | `run` never raises: a failing call on either path yields exactly "ERROR: Error in {role}: {message}" |
| Agents.RunPaths | Utils/Agents.py:163-215 | on the Hugging Face path extracted content is returned sanitized; on the standard path the reply's `content`, or `str(reply)`, is returned unsanitized |
| Coordinator.CompletionOrderFacts | Main.py:107-110 | a completion order names each of the three submitted specialists exactly once |
| Coordinator.Joined | Main.py:105-124 | the joined responses are keyed by exactly the three specialist names |
| Coordinator.RunAnalysis | Main.py:105-124 | for every completion order, the `as_completed` loop produces the same dictionary `Joined(outcome)`, keyed by exactly Cardiologist, Psychologist and Pulmonologist |
| Coordinator.FailureIsolated | Main.py:110-122 | a unit that raises is recorded as "ERROR: Exception in {name}: {msg}" under its name, and every sibling's entry is what it would otherwise have been |
| Coordinator.SuccessRecorded | Main.py:111-113 | a successful unit is recorded with exactly the text its agent's `run()` returned |
| Coordinator.ProviderOptions | Main.py:90-100 | the agents use Hugging Face with the given model exactly when Hugging Face is chosen, and never Ollama |
| Coordinator.ReportOrDefault | Main.py:141-154 | the synthesis input is the stored report, or "No report" for a missing role |
| Coordinator.SynthesisAgent | Main.py:127-158 | the team agent built from the responses with the "No report" defaults; its prompt is proved in `Coordinator.SynthesisPromptCarriesReports` |
| Coordinator.FinalDiagnosis | Main.py:127-158 | `generate_final_diagnosis`: the team agent's `run`; it is the diagnosis `Coordinator.RunMain` returns and saves |
| Coordinator.SynthesisPromptCarriesReports | Main.py:127-158 | the team's prompt always formats and contains each specialist's report, or "No report" where it is missing |
| Coordinator.SavedText | Main.py:182 | the saved text is the heading "### Final Diagnosis:\n\n" followed by the diagnosis, which can be read back from it |
| Coordinator.ProviderPlan | Main.py:224-232 | Hugging Face is chosen iff its token is set; without it and without a non-empty OpenAI key the run stops; otherwise OpenAI |
| Coordinator.LoadMedicalReport | Main.py:24-55 | a relative path is resolved under the reports directory; a missing file and a blank file are errors with the source's messages; otherwise the content is returned unchanged |
| Coordinator.LoadedReportNotBlank | Main.py:51-52 | a loaded report has a non-whitespace character, and an all-whitespace file is refused as empty |
| Coordinator.RunMain | Main.py:192-254 | `main` exits with the source's message when there is no report, when loading fails, or when no key is set, all before any backend call; otherwise it completes with the team's diagnosis over the joined responses, and the saved text |
| WebApp.ReadSecrets | app.py:135-144 | with either token key in the secrets, the token is `HUGGINGFACEHUB_API_TOKEN` when present and non-empty, else `huggingface_token`; with neither, local mode; an empty first key with no fallback is the `TypeError` of assigning `None` |
| WebApp.Configure | app.py:146-239 | deployed mode uses Hugging Face with a valid key and the secret token; in local mode the key is valid iff the chosen provider's input is non-empty, only a non-empty token reaches the environment, and OpenAI carries exactly the model chosen in the select box |
| WebApp.AnyContained | app.py:321 | `any(k in text for k in words)` holds iff some word occurs in the text |
| WebApp.KeywordAnyCase | app.py:319-321 | a report containing a medical keyword in any mix of upper and lower case passes the keyword check |
| WebApp.ValidationGate | app.py:305-329 | the button is disabled iff the report is empty or the key invalid; a report under 100 characters only warns; the not-medical error shows iff the report is non-empty, has no keyword and is over 50 characters; analysis starts exactly as `GateStarts` says |
| WebApp.GateDecisions | app.py:311-329 | analysis never starts on an empty report, without a key or without a click; a report with a keyword, or of at most 50 characters, starts on a click; a started report over 50 characters has a keyword |
| WebApp.Displayed | app.py:394-430 | the stored text of a unit; proved in `WebApp.MissingAnswerShownComplete`, `WebApp.RaisedUnitStoredAsError` and `WebApp.CollectResponses` |
| WebApp.StatusOf | app.py:397-427 | the badge of an answer, an error exactly when it contains "ERROR:"; proved in `WebApp.CollectResponses` and `WebApp.MissingAnswerShownComplete` |
| WebApp.ShownResponses | app.py:390-430 | the shown responses are keyed by exactly the three specialist names |
| WebApp.Badges | app.py:405-427 | a badge is given to exactly the units whose futures returned |
| WebApp.TallyComplete | app.py:390-430 | after all three units, in any completion order, the stored responses, the badges and the `completed` counter are the order-independent ones |
| WebApp.CollectResponses | app.py:380-430 | the `as_completed` loop stores each unit's shown response, badges each returned unit as error iff its text contains "ERROR:", and counts only returned units, whatever the completion order |
| WebApp.MissingAnswerShownComplete | app.py:395-396 | a `None` answer is stored as "❌ {name} returned no response. …", badged complete and counted |
| WebApp.NoResponseTextUnflagged | app.py:396-397 | the no-response text of a name without a colon does not contain "ERROR:" |
| WebApp.RaisedUnitStoredAsError | app.py:428-430 | a raising future is stored as "ERROR: {msg}" under its submitted name, and gets no badge |
| WebApp.StoredDiagnosis | app.py:458 | the stored diagnosis is never empty: the team's text, or "No diagnosis generated" when it is empty |
| WebApp.Session.constructor | app.py:109-115 | a new session has no complete analysis, no responses and an empty diagnosis, and satisfies `Valid` |
| WebApp.Session.Analyze | app.py:329-459 | without a start the state is unchanged; a start resets the state; if building the agents raises, the state stays reset; otherwise the shown responses and the stored diagnosis are saved and the analysis is complete, keeping `Valid` |
| WebApp.AppAnswersAll | app.py:375-377 | in the app every specialist's future returns (`run` never raises), so all three are badged and counted |
| WebApp.AppAgent | app.py:369-371 | the agent as the app builds it, with the OpenAI model switched to the sidebar's; its effect is proved in `WebApp.AppAgentBackends` |
| WebApp.AppAgentBackends | app.py:355-371 | the specialists and the team alike run on Hugging Face with the default model and the environment token, or on OpenAI with the sidebar's model, and their prompts are unaffected |
| WebApp.AppSynthesisCarriesAnswers | app.py:435-452 | the app's team prompt always formats and contains each specialist's stored answer |

## Left out

- Backend calls: `InferenceClient.chat_completion`, `ChatOpenAI` / `ChatOllama.invoke` and their network behaviour are uninterpreted parameters. Each one returns a reply or raises with a message. Temperatures and `max_tokens` are not modelled.
- Concurrency: the thread pool is replaced by sequential processing of an arbitrary completion order of the three units.
- Streamlit rendering: CSS, tabs, expanders, markdown, balloons, the disclaimer, the sample-report tab, the results display and the download buttons (app.py:484 onwards). The "Error processing …" and "Error in …" messages are also out. Only the decisions behind them are modelled.
- Progress-bar fractions (floating point) and the status texts are not modelled.
- Timestamps (`datetime.now()`) are not modelled.
- Logging (Utils/logger.py) is not modelled. On import it creates a logs directory, falling back to a temporary directory (Utils/logger.py:13-18), and opens a dated log file (Utils/logger.py:21, 53). Every logging call then writes to that file. The model has no file system for logs, and the diagnosis never depends on them.
- config.py is not part of this model. `.env` discovery, environment loading and directory creation are left out. `Config.HUGGINGFACEHUB_API_TOKEN` and `Config.OPENAI_API_KEY` are the parameters `hfToken` and `openAiKey`.
- File system: glob, `open`, `read`, the uploaded file's UTF-8 decoding and the write in `save_results` are left out. Files are a map from path to content. Path normalisation by `pathlib` is reduced to "a path starting with '/' is absolute, otherwise it is joined under the reports directory".
- The Hugging Face token writes to `os.environ` (app.py:142, app.py:192) are modelled as `Sidebar.envToken` in `WebApp.Configure`. The token an agent reads with `os.getenv` is the parameter `envToken`. The write of the OpenAI key to `OPENAI_API_KEY` (app.py:227) is left out: no modelled agent reads that key, and the key only affects `apiKeyValid`.
- Text.Lower: lower-cases ASCII letters only, not Python's full Unicode mapping. No keyword match changes. The only non-ASCII characters that lower-case to ASCII are the Kelvin sign, which gives 'k' (no keyword contains it), and 'İ', which gives 'i' followed by a combining dot that no keyword letter can follow.
- Agents.ExtractContent: the nested fields `message` and `content` are taken as present. Only the emptiness of the `choices` list and a missing (`None`) content are modelled as failures. A content of a type other than text is not modelled. Whether a completion object is also a dictionary holding "choices" is the flag `isDict`, not derived from the client library's classes.
- Agents.RunStandard: a `content` attribute that is not text is not modelled.
- Agent construction errors, such as a client constructor that raises, are not modelled. Main's outer `except Exception` and the app's "Error during analysis" branch are represented only by `setupFails` in `WebApp.Session.Analyze`, and are not modelled for `main`.
- WebApp.Configure: the OpenAI model is whichever entry of the `OPENAI_MODELS` select box is chosen. The list itself is not modelled.
- Prompt texts: each template's prose is written as concatenated literal pieces, one per source line. The text is the same as the source's. The line-level layout of the literals is not otherwise modelled.
