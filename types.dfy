// Entities of the script-to-audio pipeline: analysed characters, dialogue
// segments and the aggregate analysis, plus the small wrapper types the
// other modules share.

module Types {

  /** An optional value; `None` stands for JavaScript's `undefined`. */
  datatype Option<+T> = None | Some(value: T)

  /** The outcome of an operation that may throw: a value or an error message. */
  datatype Outcome<+T> = Success(value: T) | Failure(message: string)

  /** A byte as stored in a `Uint8Array`. */
  type uint8 = x: int | 0 <= x < 0x100

  datatype Gender = Male | Female | NonBinary | Unknown

  datatype AgeGroup = Newborn | Child | Adult | Elder | Ghost | Paranormal | Machine

  /** The lower-case spelling the analysis schema and the persona prompt use. */
  function GenderName(g: Gender): (s: string)
    ensures |s| > 0
  {
    match g
    case Male => "male"
    case Female => "female"
    case NonBinary => "non-binary"
    case Unknown => "unknown"
  }

  function AgeGroupName(a: AgeGroup): (s: string)
    ensures |s| > 0
  {
    match a
    case Newborn => "newborn"
    case Child => "child"
    case Adult => "adult"
    case Elder => "elder"
    case Ghost => "ghost"
    case Paranormal => "paranormal"
    case Machine => "machine"
  }

  /**
   * A character of the script. `suggestedVoice` is the voice the analysis
   * proposes (the empty string when the analysis gave none); the optional
   * `assignedVoiceName` is the voice actually used for synthesis.
   */
  datatype CharacterDef = CharacterDef(
    id: string,
    name: string,
    gender: Gender,
    ageGroup: AgeGroup,
    traits: string,
    suggestedVoice: string,
    assignedVoiceName: Option<string>)

  /** One spoken line; `characterId` refers to a `CharacterDef.id`. */
  datatype DialogueSegment = DialogueSegment(
    characterId: string,
    text: string,
    emotion: string,
    intensity: int,
    tone: string)

  datatype ScriptAnalysis = ScriptAnalysis(
    summary: string,
    characters: seq<CharacterDef>,
    segments: seq<DialogueSegment>)

  /** The voice offered when nothing else is chosen. */
  const DefaultVoice: string := "Kore"

  /** The prebuilt voices the form offers, in display order. */
  const Voices: seq<string> := ["Kore", "Puck", "Charon", "Fenrir", "Zephyr"]
}
