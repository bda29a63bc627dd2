// `synthesizeSegment`: one dialogue line to base64 PCM through the speech
// model. The persona prompt and the voice are computed from the segment and
// its character; the network call is an oracle from the request and the
// call number to a response or an error, and the whole call runs under the
// retry policy with five retries starting at 4000 ms.

module Synthesis {
  import opened Types
  import Retry

  // ---------------------------------------------------------------------
  // Integers as a template literal prints them
  // ---------------------------------------------------------------------

  function DigitChar(d: int): (c: char)
    requires 0 <= d < 10
    ensures '0' <= c <= '9'
  {
    ('0' as int + d) as char
  }

  /** The decimal digits of `n`, most significant first, without leading zeros. */
  function NatToString(n: nat): (s: string)
    ensures |s| >= 1
    ensures forall i :: 0 <= i < |s| ==> '0' <= s[i] <= '9'
    decreases n
  {
    if n < 10 then [DigitChar(n)] else NatToString(n / 10) + [DigitChar(n % 10)]
  }

  /** `${n}` for an integer `n`. */
  function IntToString(n: int): string {
    if n < 0 then "-" + NatToString(-n) else NatToString(n)
  }

  /** The value of a string of decimal digits. */
  function DigitsValue(s: string): nat
    requires forall i :: 0 <= i < |s| ==> '0' <= s[i] <= '9'
  {
    if s == [] then 0 else 10 * DigitsValue(s[..|s| - 1]) + (s[|s| - 1] as int - '0' as int)
  }

  /** The printed digits read back as the number. */
  lemma {:induction false} NatToStringValue(n: nat)
    ensures DigitsValue(NatToString(n)) == n
    decreases n
  {
    if n >= 10 {
      NatToStringValue(n / 10);
      var s := NatToString(n);
      assert s[..|s| - 1] == NatToString(n / 10);
    }
  }

  /** A printed integer starts with '-' exactly when it is negative. */
  lemma IntToStringSign(n: int)
    ensures |IntToString(n)| > 0 && (IntToString(n)[0] == '-' <==> n < 0)
  {
  }

  /** Printing is injective: different intensities give different prompts' digits. */
  lemma IntToStringInjective(a: int, b: int)
    requires IntToString(a) == IntToString(b)
    ensures a == b
  {
    NatToStringValue(if a < 0 then -a else a);
    NatToStringValue(if b < 0 then -b else b);
    IntToStringSign(a);
    IntToStringSign(b);
    if a < 0 {
      assert NatToString(-a) == IntToString(a)[1..];
      assert NatToString(-b) == IntToString(b)[1..];
    }
  }

  // ---------------------------------------------------------------------
  // The request
  // ---------------------------------------------------------------------

  const TtsModel: string := "gemini-2.5-flash-preview-tts"

  /** The persona prompt's first line: who speaks, and their age group and gender. */
  function SpeakerLine(character: CharacterDef): string {
    "Speak this line as \"" + character.name + "\" ("
      + AgeGroupName(character.ageGroup) + " " + GenderName(character.gender) + ").\n"
  }

  /** The second line, indented by two spaces: the emotion and its level out of 10. */
  function EmotionLine(segment: DialogueSegment): string {
    "  Emotion: " + segment.emotion + " (Level " + IntToString(segment.intensity) + "/10).\n"
  }

  /** The third line, indented by two spaces: the text in quotes. */
  function TextLine(segment: DialogueSegment): string {
    "  Line: \"" + segment.text + "\""
  }

  /** The persona prompt of the template literal. */
  function PersonaPrompt(segment: DialogueSegment, character: CharacterDef): string {
    SpeakerLine(character) + EmotionLine(segment) + TextLine(segment)
  }

  /** Where the character's fields sit in the first line. */
  lemma SpeakerLineEmbeds(character: CharacterDef)
    ensures var l, n, a := SpeakerLine(character), |character.name|, |AgeGroupName(character.ageGroup)|;
      && Retry.OccursAt(l, character.name, 20)
      && Retry.OccursAt(l, AgeGroupName(character.ageGroup), 20 + n + 3)
      && Retry.OccursAt(l, GenderName(character.gender), 20 + n + 3 + a + 1)
  {
    var t0, t1, t2, t3 := "Speak this line as \"", "\" (", " ", ").\n";
    var name, age, gender := character.name, AgeGroupName(character.ageGroup), GenderName(character.gender);
    Embeds3(t0, name, t1, age, t2, gender, t3);
  }

  /** Where the emotion and the printed intensity sit in the second line. */
  lemma EmotionLineEmbeds(segment: DialogueSegment)
    ensures var l := EmotionLine(segment);
      && Retry.OccursAt(l, segment.emotion, 11)
      && Retry.OccursAt(l, IntToString(segment.intensity), 11 + |segment.emotion| + 8)
  {
    var t0, t1, t2 := "  Emotion: ", " (Level ", "/10).\n";
    var e, i := segment.emotion, IntToString(segment.intensity);
    Embeds3(t0, e, t1, i, t2, [], []);
    assert t0 + e + t1 + i + t2 + [] + [] == t0 + e + t1 + i + t2;
  }

  lemma TextLineEmbeds(segment: DialogueSegment)
    ensures |TextLine(segment)| == 9 + |segment.text| + 1
    ensures Retry.OccursAt(TextLine(segment), segment.text, 9)
  {
    Retry.Embed("  Line: \"", segment.text, "\"");
  }

  /** Three fields placed between four pieces of template text. */
  lemma Embeds3(t0: string, x: string, t1: string, y: string, t2: string, z: string, t3: string)
    ensures var s := t0 + x + t1 + y + t2 + z + t3;
      && Retry.OccursAt(s, x, |t0|)
      && Retry.OccursAt(s, y, |t0| + |x| + |t1|)
      && Retry.OccursAt(s, z, |t0| + |x| + |t1| + |y| + |t2|)
  {
    var s := t0 + x + t1 + y + t2 + z + t3;
    assert s == t0 + x + (t1 + y + t2 + z + t3);
    Retry.Embed(t0, x, t1 + y + t2 + z + t3);
    assert s == (t0 + x + t1) + y + (t2 + z + t3);
    Retry.Embed(t0 + x + t1, y, t2 + z + t3);
    Retry.Embed(t0 + x + t1 + y + t2, z, t3);
  }

  /** An occurrence in the first line of a three-line text. */
  lemma InFirstLine(l1: string, l2: string, l3: string, sub: string, i: int)
    requires Retry.OccursAt(l1, sub, i)
    ensures Retry.OccursAt(l1 + l2 + l3, sub, i)
  {
    Retry.OccursExtend(l1, sub, i, l2 + l3);
    assert l1 + l2 + l3 == l1 + (l2 + l3);
  }

  /** An occurrence in the second line, shifted by the first line's length. */
  lemma InSecondLine(l1: string, l2: string, l3: string, sub: string, i: int)
    requires Retry.OccursAt(l2, sub, i)
    ensures Retry.OccursAt(l1 + l2 + l3, sub, |l1| + i)
  {
    Retry.OccursShift(l1, l2, sub, i);
    Retry.OccursExtend(l1 + l2, sub, |l1| + i, l3);
  }

  /**
   * The prompt embeds the name, age group and gender on its first line, the
   * emotion and the intensity on its second, and ends with the text in quotes.
   */
  lemma PromptEmbeds(segment: DialogueSegment, character: CharacterDef)
    ensures var p, n, a := PersonaPrompt(segment, character), |character.name|, |AgeGroupName(character.ageGroup)|;
      var second := |SpeakerLine(character)|;
      && Retry.OccursAt(p, character.name, 20)
      && Retry.OccursAt(p, AgeGroupName(character.ageGroup), 20 + n + 3)
      && Retry.OccursAt(p, GenderName(character.gender), 20 + n + 3 + a + 1)
      && Retry.OccursAt(p, segment.emotion, second + 11)
      && Retry.OccursAt(p, IntToString(segment.intensity), second + 11 + |segment.emotion| + 8)
      && Retry.OccursAt(p, segment.text, |p| - 1 - |segment.text|)
  {
    PromptFirstLine(segment, character);
    PromptSecondLine(segment, character);
    PromptLastLine(segment, character);
  }

  lemma PromptFirstLine(segment: DialogueSegment, character: CharacterDef)
    ensures var p, n, a := PersonaPrompt(segment, character), |character.name|, |AgeGroupName(character.ageGroup)|;
      && Retry.OccursAt(p, character.name, 20)
      && Retry.OccursAt(p, AgeGroupName(character.ageGroup), 20 + n + 3)
      && Retry.OccursAt(p, GenderName(character.gender), 20 + n + 3 + a + 1)
  {
    var l1, l2, l3 := SpeakerLine(character), EmotionLine(segment), TextLine(segment);
    var n, a := |character.name|, |AgeGroupName(character.ageGroup)|;
    SpeakerLineEmbeds(character);
    InFirstLine(l1, l2, l3, character.name, 20);
    InFirstLine(l1, l2, l3, AgeGroupName(character.ageGroup), 20 + n + 3);
    InFirstLine(l1, l2, l3, GenderName(character.gender), 20 + n + 3 + a + 1);
  }

  lemma PromptSecondLine(segment: DialogueSegment, character: CharacterDef)
    ensures var p, second := PersonaPrompt(segment, character), |SpeakerLine(character)|;
      && Retry.OccursAt(p, segment.emotion, second + 11)
      && Retry.OccursAt(p, IntToString(segment.intensity), second + 11 + |segment.emotion| + 8)
  {
    var l1, l2, l3 := SpeakerLine(character), EmotionLine(segment), TextLine(segment);
    EmotionLineEmbeds(segment);
    InSecondLine(l1, l2, l3, segment.emotion, 11);
    InSecondLine(l1, l2, l3, IntToString(segment.intensity), 11 + |segment.emotion| + 8);
  }

  lemma PromptLastLine(segment: DialogueSegment, character: CharacterDef)
    ensures var p := PersonaPrompt(segment, character);
      Retry.OccursAt(p, segment.text, |p| - 1 - |segment.text|)
  {
    var l1, l2, l3 := SpeakerLine(character), EmotionLine(segment), TextLine(segment);
    TextLineEmbeds(segment);
    Retry.OccursShift(l1 + l2, l3, segment.text, 9);
  }

  /** `character.assignedVoiceName || 'Kore'`. */
  function VoiceName(character: CharacterDef): (v: string)
    ensures v != ""
    ensures character.assignedVoiceName.Some? && character.assignedVoiceName.value != ""
      ==> v == character.assignedVoiceName.value
    ensures character.assignedVoiceName.None? || character.assignedVoiceName.value == "" ==> v == DefaultVoice
  {
    match character.assignedVoiceName
    case Some(name) => if name != "" then name else DefaultVoice
    case None => DefaultVoice
  }

  /** What `generateContent` is asked for: the model, one text part, audio out, one prebuilt voice. */
  datatype TtsRequest = TtsRequest(model: string, prompt: string, voiceName: string)

  function Request(segment: DialogueSegment, character: CharacterDef): TtsRequest {
    TtsRequest(TtsModel, PersonaPrompt(segment, character), VoiceName(character))
  }

  // ---------------------------------------------------------------------
  // The response
  // ---------------------------------------------------------------------

  datatype InlineData = InlineData(data: Option<string>)
  datatype Part = Part(inlineData: Option<InlineData>)
  datatype Content = Content(parts: seq<Part>)
  datatype Candidate = Candidate(content: Option<Content>)
  datatype TtsResponse = TtsResponse(candidates: Option<seq<Candidate>>)

  /** What the network call settles to: a response, or a thrown error with an optional message. */
  datatype ApiResult = Responded(response: TtsResponse) | Threw(message: Option<string>)

  /** `response.candidates?.[0]?.content?.parts?.[0]?.inlineData?.data`. */
  function InlinePayload(response: TtsResponse): (r: Option<string>)
    ensures r.Some? <==>
      && response.candidates.Some? && |response.candidates.value| > 0
      && response.candidates.value[0].content.Some?
      && |response.candidates.value[0].content.value.parts| > 0
      && response.candidates.value[0].content.value.parts[0].inlineData.Some?
      && response.candidates.value[0].content.value.parts[0].inlineData.value.data.Some?
  {
    match response.candidates
    case None => None
    case Some(cs) =>
      if |cs| == 0 then None
      else match cs[0].content
        case None => None
        case Some(content) =>
          if |content.parts| == 0 then None
          else match content.parts[0].inlineData
            case None => None
            case Some(inline) => inline.data
  }

  const EmptyPayload: string := "Empty audio payload"

  /** One call of the retried closure: the payload, or the error it throws. */
  function CallOnce(result: ApiResult): (a: Retry.Attempt<string>)
    ensures a.Resolved? ==> a.value != "" && result.Responded? && InlinePayload(result.response) == Some(a.value)
    ensures result.Responded? && (InlinePayload(result.response).None? || InlinePayload(result.response) == Some(""))
      ==> a == Retry.Rejected(Some(EmptyPayload))
    ensures result.Threw? ==> a == Retry.Rejected(result.message)
  {
    match result
    case Threw(message) => Retry.Rejected(message)
    case Responded(response) =>
      var payload := InlinePayload(response);
      if payload.None? || payload.value == "" then Retry.Rejected(Some(EmptyPayload))
      else Retry.Resolved(payload.value)
  }

  /**
   * The retried closure for a fixed request, with five retries from a 4000 ms
   * delay; `api(request, k)` is what the k-th network call (from 0) settles
   * to. The corrected retry numbering is used: with five retries it is the
   * numbering as written (`Retry.CorrectionAgrees`).
   */
  function Synthesize(request: TtsRequest, api: (TtsRequest, nat) -> ApiResult): Retry.Run<string> {
    Retry.WithRetryCorrected((call: nat) => CallOnce(api(request, call)), 5, 4000)
  }

  /** `synthesizeSegment(segment, character, onStatusUpdate)`. */
  function SynthesizeSegment(segment: DialogueSegment, character: CharacterDef, api: (TtsRequest, nat) -> ApiResult): Retry.Run<string> {
    Synthesize(Request(segment, character), api)
  }

  /** "Empty audio payload" is not a rate-limit error. */
  lemma EmptyPayloadNotRateLimited()
    ensures !Retry.IsRateLimited(Some(EmptyPayload))
  {
    var m := EmptyPayload;
    assert '4' !in m && 'R' !in m;
    Retry.NotIncludes(m, "429");
    Retry.NotIncludes(m, "RESOURCE_EXHAUSTED");
  }

  /** An empty or missing payload fails the call at once: it is never retried. */
  lemma EmptyPayloadNeverRetried(request: TtsRequest, api: (TtsRequest, nat) -> ApiResult)
    requires api(request, 0).Responded?
    requires var p := InlinePayload(api(request, 0).response); p.None? || p == Some("")
    ensures Synthesize(request, api) == Retry.Run(Retry.Rejected(Some(EmptyPayload)), 1, [], [])
  {
    var fn := (call: nat) => CallOnce(api(request, call));
    EmptyPayloadNotRateLimited();
    Retry.NotRateLimitedRethrown(fn, 0, 5, 4000, 1);
  }

  /**
   * A synthesis that succeeds returns the non-empty payload of its last
   * call's response; at most six calls are made, all with the same request.
   */
  lemma SynthesisOutcome(request: TtsRequest, api: (TtsRequest, nat) -> ApiResult)
    ensures var r := Synthesize(request, api);
      && 1 <= r.calls <= 6
      && (r.result.Resolved? ==>
            && r.result.value != ""
            && api(request, r.calls - 1).Responded?
            && InlinePayload(api(request, r.calls - 1).response) == Some(r.result.value))
  {
    var fn := (call: nat) => CallOnce(api(request, call));
    Retry.RetryingLast(fn, 0, 5, 4000, 1);
    var r := Retry.Retrying(fn, 0, 5, 4000, 1);
    assert r.result == CallOnce(api(request, r.calls - 1));
  }

  /** The retries are announced as 1, 2, ... and wait 4000 ms, then 8000 ms, doubling each time. */
  lemma SynthesisBackoff(request: TtsRequest, api: (TtsRequest, nat) -> ApiResult)
    ensures var r := Synthesize(request, api);
      forall k :: 0 <= k < |r.waits| ==> r.notices[k] == k + 1 && r.waits[k] == 4000 * Retry.Pow2(k)
  {
    var fn := (call: nat) => CallOnce(api(request, call));
    var r := Retry.Retrying(fn, 0, 5, 4000, 1);
    Retry.Backoff(fn, 0, 5, 4000, 1);
    forall k | 0 <= k < |r.waits| ensures r.notices[k] == k + 1 && r.waits[k] == 4000 * Retry.Pow2(k) {
      assert r.notices[k] == Retry.Retrying(fn, 0, 5, 4000, 1).notices[k];
    }
  }
}
