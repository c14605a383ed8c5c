/** Prompt templates in the style of LangChain's `PromptTemplate.from_template`: a template is
    literal text with named `{slot}` placeholders, and formatting substitutes each slot,
    raising `KeyError` for the first slot that has no argument. */
module Prompts {
  import opened Wrappers
  import opened Text
  import opened Constants

  datatype Segment = Lit(text: string) | Slot(name: string)

  type Template = seq<Segment>

  /** The names of the placeholders of `t`. */
  function Slots(t: Template): set<string> {
    if t == [] then {}
    else (if t[0].Slot? then {t[0].name} else {}) + Slots(t[1..])
  }

  /** Formatting a template: it succeeds iff every placeholder has an argument, and otherwise
      fails with the name of a missing one (the first, as `str.format` reports it). */
  function Render(t: Template, args: map<string, string>): (r: Result<string, string>)
    ensures r.Success? <==> Slots(t) <= args.Keys
    ensures r.Failure? ==> r.error in Slots(t) && r.error !in args
  {
    if t == [] then Success("")
    else
      var rest := Render(t[1..], args);
      match t[0]
      case Lit(text) =>
        if rest.Success? then Success(text + rest.value) else rest
      case Slot(name) =>
        if name !in args then Failure(name)
        else if rest.Success? then Success(args[name] + rest.value) else rest
  }

  /** A formatted template contains every argument it substitutes and every piece of literal
      text it was written with. */
  lemma RenderShowsParts(t: Template, args: map<string, string>)
    requires Render(t, args).Success?
    ensures forall n :: n in Slots(t) ==> Contains(Render(t, args).value, args[n])
    ensures forall k :: 0 <= k < |t| && t[k].Lit? ==> Contains(Render(t, args).value, t[k].text)
  {
    RenderShowsArgs(t, args);
    RenderShowsTexts(t, args);
  }

  /** The text of a successful render is the text of its first segment followed by the
      render of the rest. */
  lemma RenderStep(t: Template, args: map<string, string>)
    requires t != [] && Render(t, args).Success?
    ensures Render(t[1..], args).Success?
    ensures t[0].Slot? ==> t[0].name in args
    ensures Render(t, args).value
      == (if t[0].Lit? then t[0].text else args[t[0].name]) + Render(t[1..], args).value
  {
  }

  lemma {:induction false} RenderShowsArgs(t: Template, args: map<string, string>)
    requires Render(t, args).Success?
    ensures forall n :: n in Slots(t) ==> Contains(Render(t, args).value, args[n])
  {
    if t != [] {
      RenderStep(t, args);
      var rest := Render(t[1..], args).value;
      RenderShowsArgs(t[1..], args);
      var head := if t[0].Lit? then t[0].text else args[t[0].name];
      forall n | n in Slots(t) ensures Contains(head + rest, args[n]) {
        if t[0].Slot? && n == t[0].name {
          ContainsPrefix(head, head);
        }
        ContainsConcat(head, rest, args[n]);
      }
    }
  }

  lemma {:induction false} RenderShowsTexts(t: Template, args: map<string, string>)
    requires Render(t, args).Success?
    ensures forall k :: 0 <= k < |t| && t[k].Lit? ==> Contains(Render(t, args).value, t[k].text)
  {
    if t != [] {
      RenderStep(t, args);
      var rest := Render(t[1..], args).value;
      RenderShowsTexts(t[1..], args);
      var head := if t[0].Lit? then t[0].text else args[t[0].name];
      forall k | 0 <= k < |t| && t[k].Lit? ensures Contains(head + rest, t[k].text) {
        if k == 0 {
          ContainsPrefix(head, head);
        } else {
          assert t[1..][k - 1] == t[k];
        }
        ContainsConcat(head, rest, t[k].text);
      }
    }
  }

  // The four prompt texts, as the triple-quoted literals of the agents module spell them:
  // a leading newline, the indented lines, and the indentation before the closing quotes.

  const MultidisciplinaryTeamTemplate: Template := [
    Lit(
      "\n"
      + "                "
      + "Act like a multidisciplinary team of healthcare "
      + "professionals.\n"
      + "                "
      + "You will receive a medical report of a patient "
      + "visited by a Cardiologist, Psychologist, "
      + "and Pulmonologist.\n"
      + "                "
      + "Task: Review the patient's medical report "
      + "from the Cardiologist, Psychologist, and "
      + "Pulmonologist, analyze them and come up "
      + "with a list of 3 possible health issues "
      + "of the patient.\n"
      + "                "
      + "Just return a list of bullet points of 3 "
      + "possible health issues of the patient and "
      + "for each issue provide the reason.\n"
      + "\n"
      + "                Cardiologist Report: "),
    Slot("cardiologist_report"),
    Lit("\n                Psychologist Report: "),
    Slot("psychologist_report"),
    Lit("\n                Pulmonologist Report: "),
    Slot("pulmonologist_report"),
    Lit("\n            ")
  ]

  const CardiologistTemplate: Template := [
    Lit(
      "\n"
      + "                    "
      + "Act like a cardiologist. You will receive "
      + "a medical report of a patient.\n"
      + "                    "
      + "Task: Review the patient's cardiac workup, "
      + "including ECG, blood tests, Holter monitor "
      + "results, and echocardiogram.\n"
      + "                    "
      + "Focus: Determine if there are any subtle "
      + "signs of cardiac issues that could explain "
      + "the patient's symptoms. Rule out any underlying "
      + "heart conditions, such as arrhythmias or "
      + "structural abnormalities, that might be "
      + "missed on routine testing.\n"
      + "                    "
      + "Recommendation: Provide guidance on any "
      + "further cardiac testing or monitoring needed "
      + "to ensure there are no hidden heart-related "
      + "concerns. Suggest potential management strategies "
      + "if a cardiac issue is identified.\n"
      + "                    "
      + "Please only return the possible causes of "
      + "the patient's symptoms and the recommended "
      + "next steps.\n"
      + "                    Medical Report: "),
    Slot("medical_report"),
    Lit("\n                ")
  ]

  const PsychologistTemplate: Template := [
    Lit(
      "\n"
      + "                    "
      + "Act like a psychologist. You will receive "
      + "a patient's report.\n"
      + "                    "
      + "Task: Review the patient's report and provide "
      + "a psychological assessment.\n"
      + "                    "
      + "Focus: Identify any potential mental health "
      + "issues, such as anxiety, depression, or "
      + "trauma, that may be affecting the patient's "
      + "well-being.\n"
      + "                    "
      + "Recommendation: Offer guidance on how to "
      + "address these mental health concerns, including "
      + "therapy, counseling, or other interventions.\n"
      + "                    "
      + "Please only return the possible mental health "
      + "issues and the recommended next steps.\n"
      + "                    Patient's Report: "),
    Slot("medical_report"),
    Lit("\n                ")
  ]

  const PulmonologistTemplate: Template := [
    Lit(
      "\n"
      + "                    "
      + "Act like a pulmonologist. You will receive "
      + "a patient's report.\n"
      + "                    "
      + "Task: Review the patient's report and provide "
      + "a pulmonary assessment.\n"
      + "                    "
      + "Focus: Identify any potential respiratory "
      + "issues, such as asthma, COPD, or lung infections, "
      + "that may be affecting the patient's breathing.\n"
      + "                    "
      + "Recommendation: Offer guidance on how to "
      + "address these respiratory concerns, including "
      + "pulmonary function tests, imaging studies, "
      + "or other interventions.\n"
      + "                    "
      + "Please only return the possible respiratory "
      + "issues and the recommended next steps.\n"
      + "                    Patient's Report: "),
    Slot("medical_report"),
    Lit("\n                ")
  ]

  /** The template for an agent's role: the team template for the multidisciplinary team,
      the specialist's template for each clinical role, and the cardiologist's template for
      any other role, including none. */
  function TemplateFor(role: Option<string>): Template {
    if role == Some(MultidisciplinaryTeam) then MultidisciplinaryTeamTemplate
    else if role == Some(Psychologist) then PsychologistTemplate
    else if role == Some(Pulmonologist) then PulmonologistTemplate
    else CardiologistTemplate
  }

  /** The placeholders of the team template are the three specialist reports. */
  const TeamSlots: set<string> := {"cardiologist_report", "psychologist_report", "pulmonologist_report"}

  /** The inputs a role's prompt is formatted with: the three reports for the team, the
      medical report for every other role. */
  function RoleSlots(role: Option<string>): set<string> {
    if role == Some(MultidisciplinaryTeam) then TeamSlots else {"medical_report"}
  }

  /** The team template asks for the three reports and every other template for the medical
      report alone. */
  lemma TemplateSlotsByRole(role: Option<string>)
    ensures Slots(TemplateFor(role)) == RoleSlots(role)
  {
    TeamTemplateSlots();
    CardiologistTemplateSlots();
    PsychologistTemplateSlots();
    PulmonologistTemplateSlots();
  }

  lemma TeamTemplateSlots()
    ensures Slots(MultidisciplinaryTeamTemplate) == TeamSlots
  {
    var t := MultidisciplinaryTeamTemplate;
    assert t[6..][1..] == [];
    assert Slots(t[6..]) == {};
    assert t[5..][1..] == t[6..];
    assert Slots(t[5..]) == {"pulmonologist_report"};
    assert t[4..][1..] == t[5..];
    assert Slots(t[4..]) == {"pulmonologist_report"};
    assert t[3..][1..] == t[4..];
    assert Slots(t[3..]) == {"psychologist_report", "pulmonologist_report"};
    assert t[2..][1..] == t[3..];
    assert Slots(t[2..]) == {"psychologist_report", "pulmonologist_report"};
    assert t[1..][1..] == t[2..];
    assert Slots(t[1..]) == TeamSlots;
  }

  /** A specialist template is an opening text, the medical report and a closing text. */
  lemma SpecialistSlots(t: Template)
    requires |t| == 3 && t[0].Lit? && t[1] == Slot("medical_report") && t[2].Lit?
    ensures Slots(t) == {"medical_report"}
  {
    assert t[2..][1..] == [];
    assert Slots(t[2..]) == {};
    assert t[1..][1..] == t[2..];
    assert Slots(t[1..]) == {"medical_report"};
  }

  lemma CardiologistTemplateSlots()
    ensures Slots(CardiologistTemplate) == {"medical_report"}
  {
    SpecialistSlots(CardiologistTemplate);
  }

  lemma PsychologistTemplateSlots()
    ensures Slots(PsychologistTemplate) == {"medical_report"}
  {
    SpecialistSlots(PsychologistTemplate);
  }

  lemma PulmonologistTemplateSlots()
    ensures Slots(PulmonologistTemplate) == {"medical_report"}
  {
    SpecialistSlots(PulmonologistTemplate);
  }

  /** A role outside the three clinical names and the team falls back to the cardiologist's
      template; the three clinical roles each get a template of their own. */
  lemma TemplateFallback(role: Option<string>)
    ensures role !in {Some(Cardiologist), Some(Psychologist), Some(Pulmonologist), Some(MultidisciplinaryTeam)}
      ==> TemplateFor(role) == CardiologistTemplate
    ensures TemplateFor(Some(Psychologist)) != CardiologistTemplate
    ensures TemplateFor(Some(Pulmonologist)) != CardiologistTemplate
    ensures TemplateFor(Some(Pulmonologist)) != TemplateFor(Some(Psychologist))
  {
    // The opening texts of the three specialist templates have different lengths.
    CardiologistOpeningLength();
    PsychologistOpeningLength();
    PulmonologistOpeningLength();
  }

  lemma CardiologistOpeningLength()
    ensures CardiologistTemplate[0].Lit? && |CardiologistTemplate[0].text| == 875
  {
  }

  lemma PsychologistOpeningLength()
    ensures PsychologistTemplate[0].Lit? && |PsychologistTemplate[0].text| == 634
  {
  }

  lemma PulmonologistOpeningLength()
    ensures PulmonologistTemplate[0].Lit? && |PulmonologistTemplate[0].text| == 648
  {
  }
}
