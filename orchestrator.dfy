// The script form: the blank-text guard and the voice normalisation of the
// analysis step, the segment-by-segment synthesis run with its progress
// and pacing, and the two edits of the analysis (a character's voice, a
// segment's intensity). The component's state is mirrored by `FormState`;
// the class `Form` keeps the same fields and each handler performs one
// transition.
//
// The script analyser and the speech service are parameters: the analyser
// maps the text to an analysis or an error, and the speech service answers
// (segment position, request, attempt number) with a response or an error.

module TtsForm {
  import opened Types
  import Retry
  import Synthesis

  // ---------------------------------------------------------------------
  // The blank-text guard
  // ---------------------------------------------------------------------

  /** The characters `String.prototype.trim` removes: ECMAScript WhiteSpace and LineTerminator. */
  predicate IsJsSpace(c: char) {
    || c == '\t' || c == '\n' || c == '\U{000B}' || c == '\U{000C}' || c == '\r' || c == ' '
    || c == '\U{00A0}' || c == '\U{1680}' || ('\U{2000}' <= c <= '\U{200A}')
    || c == '\U{2028}' || c == '\U{2029}' || c == '\U{202F}' || c == '\U{205F}'
    || c == '\U{3000}' || c == '\U{FEFF}'
  }

  function TrimStart(s: string): string {
    if s == [] || !IsJsSpace(s[0]) then s else TrimStart(s[1..])
  }

  function TrimEnd(s: string): string {
    if s == [] || !IsJsSpace(s[|s| - 1]) then s else TrimEnd(s[..|s| - 1])
  }

  /** Only leading white space is removed, and what is left starts with a non-space. */
  lemma {:induction false} TrimStartSpec(s: string)
    ensures var r := TrimStart(s);
      && |r| <= |s| && r == s[|s| - |r|..]
      && (forall i :: 0 <= i < |s| - |r| ==> IsJsSpace(s[i]))
      && (r == [] || !IsJsSpace(r[0]))
    decreases |s|
  {
    if s != [] && IsJsSpace(s[0]) {
      TrimStartSpec(s[1..]);
      assert s[1..][|s[1..]| - |TrimStart(s)|..] == s[|s| - |TrimStart(s)|..];
    }
  }

  /** Only trailing white space is removed, and what is left ends with a non-space. */
  lemma {:induction false} TrimEndSpec(s: string)
    ensures var r := TrimEnd(s);
      && |r| <= |s| && r == s[..|r|]
      && (forall i :: |r| <= i < |s| ==> IsJsSpace(s[i]))
      && (r == [] || !IsJsSpace(r[|r| - 1]))
    decreases |s|
  {
    if s != [] && IsJsSpace(s[|s| - 1]) {
      TrimEndSpec(s[..|s| - 1]);
      assert s[..|s| - 1][..|TrimEnd(s)|] == s[..|TrimEnd(s)|];
    }
  }

  /** `text.trim()`. */
  function Trim(s: string): string {
    TrimEnd(TrimStart(s))
  }

  /** `!text.trim()`: the trimmed text is the empty string. */
  predicate Blank(text: string) {
    Trim(text) == ""
  }

  /** The text is blank exactly when every character of it is white space. */
  lemma BlankIff(text: string)
    ensures Blank(text) <==> forall i :: 0 <= i < |text| ==> IsJsSpace(text[i])
  {
    var t := TrimStart(text);
    TrimStartSpec(text);
    TrimEndSpec(t);
    if !forall i :: 0 <= i < |text| ==> IsJsSpace(text[i]) {
      var i :| 0 <= i < |text| && !IsJsSpace(text[i]);
      assert t != [] && !IsJsSpace(t[0]);
      assert TrimEnd(t) != [];
    }
  }

  lemma {:induction false} TrimStartSkips(front: string, rest: string)
    requires forall i :: 0 <= i < |front| ==> IsJsSpace(front[i])
    requires rest == [] || !IsJsSpace(rest[0])
    ensures TrimStart(front + rest) == rest
    decreases |front|
  {
    if front == [] {
      assert front + rest == rest;
    } else {
      assert (front + rest)[1..] == front[1..] + rest;
      TrimStartSkips(front[1..], rest);
    }
  }

  lemma {:induction false} TrimEndSkips(rest: string, back: string)
    requires forall i :: 0 <= i < |back| ==> IsJsSpace(back[i])
    requires rest == [] || !IsJsSpace(rest[|rest| - 1])
    ensures TrimEnd(rest + back) == rest
    decreases |back|
  {
    if back == [] {
      assert rest + back == rest;
    } else {
      assert (rest + back)[..|rest + back| - 1] == rest + back[..|back| - 1];
      TrimEndSkips(rest, back[..|back| - 1]);
    }
  }

  /** Trimming keeps the text between the first and the last non-blank character. */
  lemma TrimKeepsCore(front: string, core: string, back: string)
    requires forall i :: 0 <= i < |front| ==> IsJsSpace(front[i])
    requires forall i :: 0 <= i < |back| ==> IsJsSpace(back[i])
    requires core != [] && !IsJsSpace(core[0]) && !IsJsSpace(core[|core| - 1])
    ensures Trim(front + core + back) == core
  {
    assert front + core + back == front + (core + back);
    TrimStartSkips(front, core + back);
    TrimEndSkips(core, back);
  }

  // ---------------------------------------------------------------------
  // Voice normalisation and the two edits
  // ---------------------------------------------------------------------

  /** Every character's assigned voice becomes its suggested voice, or 'Kore' when that is empty. */
  function NormalizeVoices(characters: seq<CharacterDef>): (r: seq<CharacterDef>)
    ensures |r| == |characters|
    ensures forall i :: 0 <= i < |r| ==>
      r[i] == characters[i].(assignedVoiceName := Some(if characters[i].suggestedVoice != "" then characters[i].suggestedVoice else DefaultVoice))
  {
    seq(|characters|, i requires 0 <= i < |characters| =>
      var c := characters[i];
      c.(assignedVoiceName := Some(if c.suggestedVoice != "" then c.suggestedVoice else DefaultVoice)))
  }

  /** After normalisation every character is voiced by its suggestion, or by the default. */
  lemma NormalizedVoiceUsed(characters: seq<CharacterDef>, i: nat)
    requires i < |characters|
    ensures var c := NormalizeVoices(characters)[i];
      && c.id == characters[i].id && c.name == characters[i].name
      && Synthesis.VoiceName(c) == (if characters[i].suggestedVoice != "" then characters[i].suggestedVoice else DefaultVoice)
  {
  }

  /** Normalising twice changes nothing more. */
  lemma NormalizeIdempotent(characters: seq<CharacterDef>)
    ensures NormalizeVoices(NormalizeVoices(characters)) == NormalizeVoices(characters)
  {
  }

  /** Every character with the given id gets the voice; all others and all other fields stay. */
  function AssignVoice(characters: seq<CharacterDef>, charId: string, voice: string): (r: seq<CharacterDef>)
    ensures |r| == |characters|
    ensures forall i :: 0 <= i < |r| && characters[i].id == charId ==> r[i] == characters[i].(assignedVoiceName := Some(voice))
    ensures forall i :: 0 <= i < |r| && characters[i].id != charId ==> r[i] == characters[i]
  {
    seq(|characters|, i requires 0 <= i < |characters| =>
      if characters[i].id == charId then characters[i].(assignedVoiceName := Some(voice)) else characters[i])
  }

  /** A voice from the list is what synthesis then uses for that character. */
  lemma AssignedVoiceUsed(characters: seq<CharacterDef>, charId: string, voice: string, i: nat)
    requires voice in Voices && i < |characters| && characters[i].id == charId
    ensures Synthesis.VoiceName(AssignVoice(characters, charId, voice)[i]) == voice
  {
  }

  /** Choosing the same voice again changes nothing more. */
  lemma AssignVoiceIdempotent(characters: seq<CharacterDef>, charId: string, voice: string)
    ensures AssignVoice(AssignVoice(characters, charId, voice), charId, voice) == AssignVoice(characters, charId, voice)
  {
  }

  /**
   * The intensity edit: copy the segment list, then replace the one at
   * `index` by a copy with the new intensity. The slider that calls it
   * passes the index of a listed segment.
   */
  method SetIntensity(segments: seq<DialogueSegment>, index: nat, intensity: int) returns (updated: seq<DialogueSegment>)
    requires index < |segments|
    ensures |updated| == |segments|
    ensures updated[index] == segments[index].(intensity := intensity)
    ensures forall j :: 0 <= j < |segments| && j != index ==> updated[j] == segments[j]
  {
    var copy := new DialogueSegment[|segments|](j requires 0 <= j < |segments| => segments[j]);
    copy[index] := copy[index].(intensity := intensity);
    updated := copy[..];
  }

  // ---------------------------------------------------------------------
  // The synthesis run
  // ---------------------------------------------------------------------

  const SynthesisError := "Neural synthesis limit reached. Please wait a minute and try again."
  const AnalysisError := "Failed to analyze script. Please try a shorter snippet."
  const PacingDelay := 1500

  /** `Array.prototype.find`: the first character with the id, if any. */
  function Find(characters: seq<CharacterDef>, id: string): Option<CharacterDef> {
    if characters == [] then None
    else if characters[0].id == id then Some(characters[0])
    else Find(characters[1..], id)
  }

  /** `find` gives the first character with the id, and nothing exactly when none has it. */
  lemma {:induction false} FindSpec(characters: seq<CharacterDef>, id: string)
    ensures var r := Find(characters, id);
      && (r.None? <==> forall j :: 0 <= j < |characters| ==> characters[j].id != id)
      && (r.Some? ==> exists j :: 0 <= j < |characters| && characters[j] == r.value && characters[j].id == id && forall k :: 0 <= k < j ==> characters[k].id != id)
    decreases |characters|
  {
    if characters != [] && characters[0].id != id {
      var r := Find(characters[1..], id);
      FindSpec(characters[1..], id);
      assert forall j :: 1 <= j < |characters| ==> characters[j] == characters[1..][j - 1];
      if r.Some? {
        var j :| 0 <= j < |characters[1..]| && characters[1..][j] == r.value && characters[1..][j].id == id
          && forall k :: 0 <= k < j ==> characters[1..][k].id != id;
        assert characters[j + 1] == r.value && forall k :: 0 <= k < j + 1 ==> characters[k].id != id;
      }
    } else if characters != [] {
      assert characters[0] == Find(characters, id).value;
    }
  }

  /**
   * The synthesis of one segment, with its retries, as a function of the
   * segment's position, the segment and its character.
   */
  type Synthesizer = (nat, DialogueSegment, CharacterDef) -> Retry.Run<string>

  /** `synthesizeSegment` over the speech service, which also sees the segment's position. */
  function Speaker(api: (nat, Synthesis.TtsRequest, nat) -> Synthesis.ApiResult): Synthesizer {
    (i: nat, seg: DialogueSegment, c: CharacterDef) =>
      Synthesis.SynthesizeSegment(seg, c, (request: Synthesis.TtsRequest, call: nat) => api(i, request, call))
  }

  /**
   * The payload for segment `i`: its character is looked up by id (a
   * missing one makes the loop throw) and then the segment is synthesised.
   */
  function SegmentAudio(analysis: ScriptAnalysis, synth: Synthesizer, i: nat): Option<string>
    requires i < |analysis.segments|
  {
    var seg := analysis.segments[i];
    match Find(analysis.characters, seg.characterId)
    case None => None
    case Some(c) =>
      var run := synth(i, seg, c);
      if run.result.Resolved? then Some(run.result.value) else None
  }

  /**
   * With the speech service, a payload for a segment is non-empty and is the
   * answer to that segment's own request, for a character with its id, on one
   * of at most six attempts.
   */
  lemma SegmentAudioSource(analysis: ScriptAnalysis, api: (nat, Synthesis.TtsRequest, nat) -> Synthesis.ApiResult, i: nat)
    requires i < |analysis.segments|
    ensures var seg, audio := analysis.segments[i], SegmentAudio(analysis, Speaker(api), i);
      audio.Some? ==>
        && audio.value != ""
        && exists c, call: nat :: c in analysis.characters && c.id == seg.characterId && call < 6
             && api(i, Synthesis.Request(seg, c), call).Responded?
             && Synthesis.InlinePayload(api(i, Synthesis.Request(seg, c), call).response) == audio
  {
    var seg := analysis.segments[i];
    var found := Find(analysis.characters, seg.characterId);
    FindSpec(analysis.characters, seg.characterId);
    if found.Some? {
      var c := found.value;
      var request := Synthesis.Request(seg, c);
      var service := (q: Synthesis.TtsRequest, call: nat) => api(i, q, call);
      Synthesis.SynthesisOutcome(request, service);
      var run := Synthesis.Synthesize(request, service);
      assert Speaker(api)(i, seg, c) == run;
      if run.result.Resolved? {
        var call: nat := run.calls - 1;
        assert service(request, call) == api(i, request, call);
      }
    }
  }

  /** The number of leading segments, from `i` on, that get a payload. */
  function Leading(analysis: ScriptAnalysis, synth: Synthesizer, i: nat): (k: nat)
    requires i <= |analysis.segments|
    ensures i <= k <= |analysis.segments|
    ensures forall j :: i <= j < k ==> SegmentAudio(analysis, synth, j).Some?
    ensures k < |analysis.segments| ==> SegmentAudio(analysis, synth, k).None?
    decreases |analysis.segments| - i
  {
    if i == |analysis.segments| || SegmentAudio(analysis, synth, i).None? then i
    else Leading(analysis, synth, i + 1)
  }

  /** `Math.round((done / n) * 100)` on exact rationals: the nearest integer, halves rounded up. */
  function Progress(done: nat, n: nat): int
    requires n > 0
  {
    (200 * done + n) / (2 * n)
  }

  /** The progress value is the integer nearest to `100 * done / n`, a half rounded up. */
  lemma ProgressRounds(done: nat, n: nat)
    requires n > 0
    ensures var p := Progress(done, n); 2 * n * p <= 200 * done + n < 2 * n * p + 2 * n
  {
  }

  lemma Cancel(c: int, a: int, b: int)
    requires c > 0 && c * a < c * b + c
    ensures a <= b
  {
    assert c * b + c == c * (b + 1);
    if b + 1 <= a {
      MulMonotone(c, b + 1, a);
    }
  }

  lemma MulMonotone(c: int, x: int, y: int)
    requires c > 0 && x <= y
    ensures c * x <= c * y
  {
    assert c * y - c * x == c * (y - x);
  }

  /** Progress stays within 0..100, never decreases, and reaches 100 with the last segment. */
  lemma ProgressProperties(d1: nat, d2: nat, n: nat)
    requires n > 0 && d1 <= d2 <= n
    ensures 0 <= Progress(d1, n) <= Progress(d2, n) <= 100
    ensures Progress(n, n) == 100
  {
    var p1, p2 := Progress(d1, n), Progress(d2, n);
    ProgressRounds(d1, n);
    ProgressRounds(d2, n);
    ProgressRounds(n, n);
    Cancel(2 * n, p1, p2);
    assert 2 * n * p2 <= 200 * n + n < 2 * n * 100 + 2 * n;
    Cancel(2 * n, p2, 100);
    Cancel(2 * n, 0, p1);
    var q := Progress(n, n);
    Cancel(2 * n, q, 100);
    Cancel(2 * n, 100, q);
  }

  /** What one press of the render button produces: the payloads or an error, the progress values shown, the pauses taken. */
  datatype RenderRun = RenderRun(outcome: Outcome<seq<string>>, progress: seq<int>, pauses: seq<int>)

  /**
   * `handleSynthesize`'s loop: segments in order, one payload each, the
   * progress after each, a pause between consecutive segments; the first
   * failure (a missing character or a failed synthesis) ends the run with
   * the error.
   */
  method RenderSegments(analysis: ScriptAnalysis, synth: Synthesizer) returns (run: RenderRun)
    ensures run.outcome.Success? <==> Leading(analysis, synth, 0) == |analysis.segments|
    ensures run.outcome.Success? ==> |run.outcome.value| == |analysis.segments|
    ensures run.outcome.Success? ==>
      forall j :: 0 <= j < |analysis.segments| ==> SegmentAudio(analysis, synth, j) == Some(run.outcome.value[j])
    ensures run.outcome.Failure? ==> run.outcome.message == SynthesisError
    ensures |run.progress| == Leading(analysis, synth, 0) + 1 && run.progress[0] == 0
    ensures forall j :: 1 <= j < |run.progress| ==> run.progress[j] == Progress(j, |analysis.segments|)
    ensures |run.pauses| == (if run.outcome.Success? && |analysis.segments| > 0 then |analysis.segments| - 1 else Leading(analysis, synth, 0))
    ensures forall j :: 0 <= j < |run.pauses| ==> run.pauses[j] == PacingDelay
  {
    var n := |analysis.segments|;
    var parts: seq<string> := [];
    var progress: seq<int> := [0];
    var pauses: seq<int> := [];
    var i := 0;
    while i < n
      invariant 0 <= i <= n
      invariant |parts| == i && forall j :: 0 <= j < i ==> SegmentAudio(analysis, synth, j) == Some(parts[j])
      invariant |progress| == i + 1 && progress[0] == 0
      invariant forall j :: 1 <= j <= i ==> progress[j] == Progress(j, n)
      invariant |pauses| == (if i == n && n > 0 then n - 1 else i)
      invariant forall j :: 0 <= j < |pauses| ==> pauses[j] == PacingDelay
      invariant Leading(analysis, synth, 0) == Leading(analysis, synth, i)
    {
      var seg := analysis.segments[i];
      var character := Find(analysis.characters, seg.characterId);
      if character.None? {
        assert SegmentAudio(analysis, synth, i).None?;
        run := RenderRun(Failure(SynthesisError), progress, pauses);
        return;
      }
      var result := synth(i, seg, character.value);
      if result.result.Rejected? {
        assert SegmentAudio(analysis, synth, i).None?;
        run := RenderRun(Failure(SynthesisError), progress, pauses);
        return;
      }
      parts := parts + [result.result.value];
      progress := progress + [Progress(i + 1, n)];
      if i < n - 1 {
        pauses := pauses + [PacingDelay];
      }
      i := i + 1;
    }
    run := RenderRun(Success(parts), progress, pauses);
  }

  // ---------------------------------------------------------------------
  // The component
  // ---------------------------------------------------------------------

  /**
   * The form's state and what it has handed to its parent: every analysis
   * passed to `onAnalysisComplete` and every payload list passed to
   * `onAudioComplete`, in order; `isProcessing` is the parent's flag,
   * set only through `setIsProcessing`.
   */
  datatype FormState = FormState(
    text: string,
    localAnalysis: Option<ScriptAnalysis>,
    progress: int,
    errorMsg: Option<string>,
    isProcessing: bool,
    analyses: seq<ScriptAnalysis>,
    audio: seq<seq<string>>)

  /** `handleAnalyze`. */
  function Analyze(s: FormState, analyzer: string -> Outcome<ScriptAnalysis>): FormState {
    if Blank(s.text) then s
    else
      match analyzer(s.text)
      case Failure(_) => s.(progress := 0, errorMsg := Some(AnalysisError), isProcessing := false)
      case Success(a) =>
        var b := WithDefaultVoices(a);
        s.(progress := 0, errorMsg := None, isProcessing := false, localAnalysis := Some(b), analyses := s.analyses + [b])
  }

  lemma AnalyzeBlank(s: FormState, analyzer: string -> Outcome<ScriptAnalysis>)
    requires Blank(s.text)
    ensures Analyze(s, analyzer) == s
  {
  }

  lemma AnalyzeFails(s: FormState, analyzer: string -> Outcome<ScriptAnalysis>)
    requires !Blank(s.text) && analyzer(s.text).Failure?
    ensures Analyze(s, analyzer) == s.(progress := 0, errorMsg := Some(AnalysisError), isProcessing := false)
  {
  }

  lemma AnalyzeSucceeds(s: FormState, analyzer: string -> Outcome<ScriptAnalysis>)
    requires !Blank(s.text) && analyzer(s.text).Success?
    ensures var b := WithDefaultVoices(analyzer(s.text).value);
      Analyze(s, analyzer) == s.(progress := 0, errorMsg := None, isProcessing := false, localAnalysis := Some(b), analyses := s.analyses + [b])
  {
  }

  /** The analysis with every character's voice normalised. */
  function WithDefaultVoices(a: ScriptAnalysis): ScriptAnalysis {
    a.(characters := NormalizeVoices(a.characters))
  }

  /** `handleSynthesize`, given the run its loop performs. */
  function Synthesized(s: FormState, run: RenderRun): FormState
    requires |run.progress| > 0
  {
    var t := s.(progress := run.progress[|run.progress| - 1], isProcessing := false);
    match run.outcome
    case Success(parts) => t.(audio := s.audio + [parts])
    case Failure(message) => t.(errorMsg := Some(message))
  }

  /** `updateCharacterVoice`. */
  function VoiceChosen(s: FormState, charId: string, voice: string): FormState {
    match s.localAnalysis
    case None => s
    case Some(a) =>
      var b := a.(characters := AssignVoice(a.characters, charId, voice));
      s.(localAnalysis := Some(b), analyses := s.analyses + [b])
  }

  /** `updateSegmentIntensity`. */
  function IntensityChosen(s: FormState, index: nat, intensity: int): FormState
    requires s.localAnalysis.Some? ==> index < |s.localAnalysis.value.segments|
  {
    match s.localAnalysis
    case None => s
    case Some(a) => s.(localAnalysis := Some(a.(segments := a.segments[index := a.segments[index].(intensity := intensity)])))
  }

  /** Typing in the text area: new text, and any analysis is discarded. */
  function Edited(s: FormState, text: string): FormState {
    s.(text := text, localAnalysis := None)
  }

  class Form {
    var text: string
    var localAnalysis: Option<ScriptAnalysis>
    var progress: int
    var errorMsg: Option<string>
    var isProcessing: bool
    var analyses: seq<ScriptAnalysis>
    var audio: seq<seq<string>>

    function State(): FormState
      reads this
    {
      FormState(text, localAnalysis, progress, errorMsg, isProcessing, analyses, audio)
    }

    constructor()
      ensures State() == FormState("", None, 0, None, false, [], [])
    {
      text, localAnalysis, progress, errorMsg, isProcessing, analyses, audio := "", None, 0, None, false, [], [];
    }

    method HandleAnalyze(analyzer: string -> Outcome<ScriptAnalysis>)
      modifies this
      ensures State() == Analyze(old(State()), analyzer)
    {
      ghost var s := State();
      if Blank(text) {
        AnalyzeBlank(s, analyzer);
        return;
      }
      // The analyzer is a synchronous parameter here, so the busy flag raised
      // around the request is already lowered when the handler returns.
      var result := analyzer(text);
      if result.Failure? {
        progress, errorMsg, isProcessing := 0, Some(AnalysisError), false;
        AnalyzeFails(s, analyzer);
        return;
      }
      var analysis := WithDefaultVoices(result.value);
      progress, errorMsg, isProcessing, localAnalysis, analyses := 0, None, false, Some(analysis), analyses + [analysis];
      AnalyzeSucceeds(s, analyzer);
    }

    method HandleSynthesize(api: (nat, Synthesis.TtsRequest, nat) -> Synthesis.ApiResult) returns (ghost run: RenderRun)
      modifies this
      ensures old(localAnalysis).None? ==> State() == old(State())
      ensures old(localAnalysis).Some? ==>
        var a, synth := old(localAnalysis).value, Speaker(api);
        && (run.outcome.Success? <==> Leading(a, synth, 0) == |a.segments|)
        && (run.outcome.Success? ==> |run.outcome.value| == |a.segments|)
        && (run.outcome.Success? ==>
              forall j :: 0 <= j < |a.segments| ==> SegmentAudio(a, synth, j) == Some(run.outcome.value[j]))
        && (run.outcome.Failure? ==> run.outcome.message == SynthesisError)
        && |run.progress| == Leading(a, synth, 0) + 1 && run.progress[0] == 0
        && (forall j :: 1 <= j < |run.progress| ==> run.progress[j] == Progress(j, |a.segments|))
        && |run.pauses| == (if run.outcome.Success? && |a.segments| > 0 then |a.segments| - 1 else Leading(a, synth, 0))
        && (forall j :: 0 <= j < |run.pauses| ==> run.pauses[j] == PacingDelay)
      ensures old(localAnalysis).Some? ==> |run.progress| > 0 && State() == Synthesized(old(State()), run)
    {
      run := RenderRun(Failure(""), [0], []);
      if localAnalysis.None? {
        return;
      }
      // As in handleAnalyze, the busy flag and the reset progress are
      // overwritten before the handler returns.
      var r := RenderSegments(localAnalysis.value, Speaker(api));
      run := r;
      var last := r.progress[|r.progress| - 1];
      match r.outcome
      case Success(parts) =>
        progress, audio, isProcessing := last, audio + [parts], false;
      case Failure(message) =>
        progress, errorMsg, isProcessing := last, Some(message), false;
    }

    method UpdateCharacterVoice(charId: string, voice: string)
      modifies this
      ensures State() == VoiceChosen(old(State()), charId, voice)
    {
      if localAnalysis.None? {
        return;
      }
      var updated := localAnalysis.value.(characters := AssignVoice(localAnalysis.value.characters, charId, voice));
      localAnalysis := Some(updated);
      analyses := analyses + [updated];
    }

    method UpdateSegmentIntensity(index: nat, intensity: int)
      requires localAnalysis.Some? ==> index < |localAnalysis.value.segments|
      modifies this
      ensures State() == IntensityChosen(old(State()), index, intensity)
    {
      if localAnalysis.None? {
        return;
      }
      var a := localAnalysis.value;
      var updated := SetIntensity(a.segments, index, intensity);
      assert updated == a.segments[index := a.segments[index].(intensity := intensity)];
      localAnalysis := Some(a.(segments := updated));
    }

    method EditText(newText: string)
      modifies this
      ensures State() == Edited(old(State()), newText)
    {
      text := newText;
      localAnalysis := None;
    }
  }

  // ---------------------------------------------------------------------
  // Properties of the handlers
  // ---------------------------------------------------------------------

  /** Blank text: pressing analyse changes nothing and calls nothing. */
  lemma AnalyzeBlankNoop(s: FormState, analyzer: string -> Outcome<ScriptAnalysis>)
    requires forall i :: 0 <= i < |s.text| ==> IsJsSpace(s.text[i])
    ensures Analyze(s, analyzer) == s
  {
    BlankIff(s.text);
  }

  /**
   * Non-blank text: processing ends either with the analysis stored and
   * passed on, its characters voiced as suggested or by the default, in the
   * same number and order; or with the analysis error.
   */
  lemma AnalyzeResult(s: FormState, analyzer: string -> Outcome<ScriptAnalysis>)
    requires !Blank(s.text)
    ensures var t := Analyze(s, analyzer);
      && !t.isProcessing && t.progress == 0
      && (analyzer(s.text).Failure? ==> t.errorMsg == Some(AnalysisError) && t.analyses == s.analyses && t.localAnalysis == s.localAnalysis)
      && (analyzer(s.text).Success? ==>
            var a := analyzer(s.text).value;
            && t.errorMsg.None? && t.localAnalysis.Some? && t.analyses == s.analyses + [t.localAnalysis.value]
            && t.localAnalysis.value.segments == a.segments && t.localAnalysis.value.summary == a.summary
            && |t.localAnalysis.value.characters| == |a.characters|
            && forall i :: 0 <= i < |a.characters| ==>
                 t.localAnalysis.value.characters[i].id == a.characters[i].id
                 && t.localAnalysis.value.characters[i].assignedVoiceName.Some?
                 && t.localAnalysis.value.characters[i].assignedVoiceName.value != "")
  {
  }

  /**
   * A run in which some segment fails hands no audio to the parent, sets
   * the synthesis error and clears processing; a run in which every segment
   * succeeds hands over exactly one payload per segment, in order.
   */
  lemma SynthesizedResult(s: FormState, analysis: ScriptAnalysis, synth: Synthesizer, run: RenderRun)
    requires |run.progress| > 0
    requires run.outcome.Success? <==> Leading(analysis, synth, 0) == |analysis.segments|
    requires run.outcome.Failure? ==> run.outcome.message == SynthesisError
    requires run.outcome.Success? ==> |run.outcome.value| == |analysis.segments|
    ensures var t := Synthesized(s, run);
      && !t.isProcessing && t.localAnalysis == s.localAnalysis
      && ((exists j :: 0 <= j < |analysis.segments| && SegmentAudio(analysis, synth, j).None?) ==>
            t.audio == s.audio && t.errorMsg == Some(SynthesisError))
      && ((forall j :: 0 <= j < |analysis.segments| ==> SegmentAudio(analysis, synth, j).Some?) ==>
            t.audio == s.audio + [run.outcome.value] && |run.outcome.value| == |analysis.segments| && t.errorMsg == s.errorMsg)
  {
    var k := Leading(analysis, synth, 0);
    if exists j :: 0 <= j < |analysis.segments| && SegmentAudio(analysis, synth, j).None? {
      assert k < |analysis.segments|;
    }
  }

  /** The voice edit changes only the voice of the characters with that id, and only while an analysis is present. */
  lemma VoiceChosenOnly(s: FormState, charId: string, voice: string)
    requires s.localAnalysis.Some?
    ensures var t := VoiceChosen(s, charId, voice);
      && t.localAnalysis.Some?
      && t.localAnalysis.value.segments == s.localAnalysis.value.segments
      && t.localAnalysis.value.characters == AssignVoice(s.localAnalysis.value.characters, charId, voice)
      && t.analyses == s.analyses + [t.localAnalysis.value]
      && t.text == s.text && t.audio == s.audio
  {
  }

  /** The intensity edit changes only the intensity of the one segment, and is not passed to the parent. */
  lemma IntensityChosenOnly(s: FormState, index: nat, intensity: int)
    requires s.localAnalysis.Some? && index < |s.localAnalysis.value.segments|
    ensures var a, t := s.localAnalysis.value, IntensityChosen(s, index, intensity);
      && t.localAnalysis.Some? && t.localAnalysis.value.characters == a.characters
      && |t.localAnalysis.value.segments| == |a.segments|
      && t.localAnalysis.value.segments[index].intensity == intensity
      && t.localAnalysis.value.segments[index].text == a.segments[index].text
      && t.localAnalysis.value.segments[index].characterId == a.segments[index].characterId
      && (forall j :: 0 <= j < |a.segments| && j != index ==> t.localAnalysis.value.segments[j] == a.segments[j])
      && t.analyses == s.analyses
  {
  }
}
