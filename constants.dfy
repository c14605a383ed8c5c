/** The literal configuration values of the diagnostics system that the modelled logic reads. */
module Constants {

  // Model identifiers
  const DefaultHfModel: string := "meta-llama/Llama-3.2-3B-Instruct"
  const DefaultOllamaModel: string := "llama3.2"
  const DefaultOpenAiModel: string := "gpt-4-turbo"

  // Report validation thresholds
  const MinReportLength: nat := 100
  const MinReportLengthWarning: nat := 50

  /** Words whose presence (case-insensitively) marks a text as a medical report. */
  const MedicalKeywords: seq<string> := [
    "patient", "medical", "diagnosis", "symptoms", "treatment", "health",
    "hospital", "doctor", "condition", "disease", "exam", "test", "report",
    "clinical", "history", "age", "complaint", "vital"
  ]

  // Agent role names
  const Cardiologist: string := "Cardiologist"
  const Psychologist: string := "Psychologist"
  const Pulmonologist: string := "Pulmonologist"
  const MultidisciplinaryTeam: string := "MultidisciplinaryTeam"

  // Repetition detection
  const MaxRepetitionCount: nat := 2
  const MaxContentLength: nat := 2000
  const RepetitionPattern: string := "However, given"
}
