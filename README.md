# Dreamscape audio pipeline, modelled in Dafny

Dreamscape turns a script into a multi-voice audio performance:
- an analysis step finds the characters and the dialogue segments;
- each segment is synthesised by a speech service, with retries on rate limiting;
- the base64 PCM payloads are joined into a WAV file or played back one after another.

This project models the parts of that pipeline that carry logic and proves properties about them:

- **Retry** (`retry.dfy`): the `withRetry` policy of `services/geminiService.ts`. The recursive retry runs over an oracle of
  call outcomes. It records the `onRetry` notices and the waits instead of sleeping.
- **Synthesis** (`synthesis.dfy`): `synthesizeSegment`. It covers the persona prompt text, the voice fallback, the
  payload extraction, and the "Empty audio payload" error that is not retried.
- **Base64** (`base64.dfy`): the browser's `atob`. It is the forgiving base64 decode of the WHATWG HTML standard over the
  alphabet of section 4 of RFC 4648. The padded encoder is modelled as its inverse.
- **Wav** (`wav.dfy`): `mergeAudioSegments`. The byte-fill loop, the `combined.set` offset loop and the header writes
  work on Dafny arrays. The header writes are modelled as `DataView` writes with ToUint32/ToUint16 wrap-around.
- **Player** (`player.dfy`): the playback sequencer of `components/AudioPlayer.tsx`. The class `AudioPlayer` has the
  component's refs and state as fields. Each method performs one transition of the value-level `PlayerState`.
  Web Audio sources are records of the buffer index they play, whether `onended` is attached, and whether playback has
  ended. `start` and `stop` calls are kept in an event log.
- **TtsForm** (`orchestrator.dfy`): `components/TTSForm.tsx`. It covers the blank-text guard, voice normalisation,
  the segment-by-segment synthesis loop with progress and pacing, and the voice and intensity edits. The class `Form`
  holds the component's state and what it handed to its parent.
- **Panel** (`panel.dfy`): `components/TextAnalysisPanel.tsx`. It covers the emotion icon classification, the intensity
  percentage, the recommended voice and the choice of view.
- **Types** (`types.dfy`): the entities of `types.ts`. `CharacterDef` also carries `suggestedVoice`, which the analysis
  schema requires (`services/geminiService.ts:100`) and `components/TTSForm.tsx:40` reads, although `types.ts`
  does not declare it.

External services are function parameters:
- the speech service: (segment position, request, attempt number) to response or error;
- the script analyser;
- the audio decoder;
- the payload-to-bytes conversion.

## Behaviour of the code worth noting

- Five retries mean up to six calls of the speech service, with waits 4000, 8000, …, 64000 ms
  (`Synthesis.SynthesisOutcome`, `Synthesis.SynthesisBackoff`).
- A failed segment aborts the whole run (`TtsForm.RenderSegments`); later segments are not attempted.
  An analysis with zero segments renders as an empty, successful run.
- The persona prompt carries the name, age group, gender, emotion, intensity and text, and nothing else.
- A suspended audio context is never resumed. Reset stops and rewinds but does not start playback again.
- After analysis, every character's assigned voice is overwritten with its suggestion, or 'Kore'.

## Model

| member | source | states |
|---|---|---|
| Types.GenderName | types.ts:7 | each gender has its non-empty schema spelling |
| Types.AgeGroupName | types.ts:2 | each age group has its non-empty schema spelling |
| Retry.Retrying | services/geminiService.ts:10-30 | a run makes between 1 and retries+1 calls, with one notice and one wait per retry |
| Retry.IncludesOccurs | services/geminiService.ts:19-21 | `includes` holds exactly when the substring occurs at some index |
| Retry.FirstCallResolves | services/geminiService.ts:16-17 | a first call that resolves is returned at once: one call, no notice, no wait |
| Retry.NotRateLimitedRethrown | services/geminiService.ts:19-29 | a rejection that is not rate-limited is rethrown at once: one call, no notice, no wait |
| Retry.RetryingLast | services/geminiService.ts:15-29 | the run's outcome is that of its last call |
| Retry.RetryingOutcome | services/geminiService.ts:15-29 | every call before the last was a retryable rejection; a run that stops early stops on a non-retryable outcome |
| Retry.PersistentRateLimit | services/geminiService.ts:23-28 | a call that is always rate-limited is made exactly max(retries, 0)+1 times and its last rejection is rethrown |
| Retry.Backoff | services/geminiService.ts:24-26 | the k-th wait is delay·2^k and the k-th notice carries attempt+k |
| Retry.RetryingIgnoresLabels | services/geminiService.ts:24 | the attempt numbers only label the notices; outcome, calls and waits do not depend on them |
| Retry.WithRetryNotices | services/geminiService.ts:24 | as written, the k-th notice carries 6 − retries + k |
| Retry.ThreeRetriesMisnumbered | services/geminiService.ts:24 | as written, three retries are announced as attempts 3, 4, 5; corrected, as 1, 2, 3 |
| Retry.WithRetryCorrectedNotices | services/geminiService.ts:24 | corrected, the k-th notice carries k + 1 for every budget |
| Retry.CorrectionAgrees | services/geminiService.ts:24 | the correction keeps outcome, calls and waits, and changes nothing for five retries |
| Synthesis.NatToStringValue | services/geminiService.ts:139 | the printed digits of the intensity denote its value |
| Synthesis.IntToStringInjective | services/geminiService.ts:139 | different intensities print differently |
| Synthesis.SpeakerLineEmbeds | services/geminiService.ts:138 | the first prompt line holds the name, then the age group, then the gender, at fixed offsets |
| Synthesis.EmotionLineEmbeds | services/geminiService.ts:139 | the second prompt line holds the emotion and the printed intensity at fixed offsets |
| Synthesis.TextLineEmbeds | services/geminiService.ts:140 | the third prompt line holds the segment text right after its label |
| Synthesis.PromptEmbeds | services/geminiService.ts:138-140 | the whole prompt holds name, age group, gender, emotion, intensity and text at computed positions |
| Synthesis.VoiceName | services/geminiService.ts:150 | the assigned voice when non-empty, otherwise 'Kore'; never empty |
| Synthesis.InlinePayload | services/geminiService.ts:156 | the optional chain yields the first candidate's first part's inline data exactly when each link is present |
| Synthesis.CallOnce | services/geminiService.ts:156-158 | a resolved call carries the non-empty payload; a missing or empty payload is "Empty audio payload"; a thrown error passes through |
| Synthesis.EmptyPayloadNotRateLimited | services/geminiService.ts:157 | the empty-payload error contains neither "429" nor "RESOURCE_EXHAUSTED" |
| Synthesis.EmptyPayloadNeverRetried | services/geminiService.ts:156-158 | an empty payload fails the synthesis on the first call, with no retry and no wait |
| Synthesis.SynthesisOutcome | services/geminiService.ts:142-161 | at most six calls; a result is the non-empty payload of the last call's response |
| Synthesis.SynthesisBackoff | services/geminiService.ts:159-161 | the retries are announced as 1, 2, … and wait 4000·2^k ms |
| Base64.Atob | services/geminiService.ts:37 | `atob` succeeds exactly when the stripped, unpadded input is alphabet characters with a length not ≡ 1 mod 4; its characters are below 256 |
| Base64.StripWhitespace | services/geminiService.ts:37 | no ASCII whitespace remains and the result is no longer than the input |
| Base64.StripWhitespaceAppend | services/geminiService.ts:37 | stripping distributes over concatenation, so it works character by character and keeps the order |
| Base64.StripWhitespaceSingle | services/geminiService.ts:37 | a single character is dropped exactly when it is ASCII whitespace, and kept otherwise |
| Base64.EncodeUnpaddedLength | services/geminiService.ts:37 | the encoding has four characters per three bytes, and k+1 for a tail of k bytes |
| Base64.DecodeEncodeUnpadded | services/geminiService.ts:37 | decoding the sextets of an encoding gives back the bytes |
| Base64.AtobEncode | services/geminiService.ts:37 | `atob` of the padded base64 encoding of bytes is the binary string of those bytes |
| Wav.ByteValuesOfBinaryString | services/geminiService.ts:41 | storing a binary string's character codes in a `Uint8Array` gives back the bytes |
| Wav.BinaryStringToBytes | services/geminiService.ts:38-43 | the byte array holds each character code modulo 256, in order |
| Wav.DecodeSegment | services/geminiService.ts:36-44 | a segment decodes exactly when `atob` succeeds, to one byte per character |
| Wav.DecodeSegments | services/geminiService.ts:36-44 | all segments decode, in order, exactly when every `atob` succeeds |
| Wav.ConcatPrefix | services/geminiService.ts:46-52 | the bytes of the first k buffers are a prefix of all the bytes |
| Wav.ConcatPlacement | services/geminiService.ts:46-52 | buffer k sits at the offset equal to the lengths of the buffers before it |
| Wav.CombineBuffers | services/geminiService.ts:46-52 | the combined array is every buffer's bytes back to back, in order, of the reduced total length |
| Wav.SetBytes | services/geminiService.ts:50 | `set` writes the source at the offset and leaves every other byte |
| Wav.SetUint | services/geminiService.ts:57-69 | a DataView write stores the value's low bytes in the given byte order and leaves every other byte |
| Wav.FromLittleEndianOf | services/geminiService.ts:57-69 | reading back a little-endian write gives the value modulo 256^width |
| Wav.GetFieldBytes | services/geminiService.ts:57-69 | a DataView read at a write's offset returns the stored value modulo 256^width |
| Wav.WriteHeader | services/geminiService.ts:55-69 | the 44 header bytes are the RIFF descriptor, the fmt chunk and the data chunk header |
| Wav.HeaderTags | services/geminiService.ts:57-68 | the big-endian constants spell "RIFF", "WAVE", "fmt " and "data" at offsets 0, 8, 12 and 36 |
| Wav.HeaderFields | services/geminiService.ts:58-69 | the little-endian fields read back as 36+total, 16, 1, 1, rate, 2·rate, 2, 16 and total, with 32- or 16-bit wrap-around |
| Wav.MergeAudioSegments | services/geminiService.ts:35-72 | the merge fails exactly when some `atob` fails, and otherwise yields the header followed by the concatenated PCM |
| Wav.MergeFails | services/geminiService.ts:37 | one undecodable segment makes the whole merge throw |
| Wav.WavLayout | services/geminiService.ts:71 | the file is 44 + total bytes: the header, then from offset 44 the concatenated PCM |
| Wav.WavPlacement | services/geminiService.ts:46-71 | segment k's bytes sit at 44 plus the lengths before it |
| Wav.WavLengthFields | services/geminiService.ts:58-69 | read from the whole file, the RIFF size, the data size and the sample rate are as written |
| Wav.DefaultRateFields | services/geminiService.ts:35-65 | without a rate argument the file declares 24000 samples and 48000 bytes per second |
| Wav.MergeEncoded | services/geminiService.ts:35-72 | merging the base64 encodings of PCM buffers succeeds with the WAV file of exactly those buffers |
| Player.DecodeAll | components/AudioPlayer.tsx:21-23 | all payloads decode, in order, one buffer each, exactly when every decoding succeeds |
| Player.AudioPlayer.constructor | components/AudioPlayer.tsx:11-15 | no context, no buffers, stopped at index 0 |
| Player.AudioPlayer.PlaySegment | components/AudioPlayer.tsx:33-58 | the new state is the `playSegment` transition of the old one |
| Player.AudioPlayer.OnEnded | components/AudioPlayer.tsx:44-52 | the new state is the natural-end transition: advance, or stop and rewind |
| Player.AudioPlayer.StopAudio | components/AudioPlayer.tsx:60-67 | the new state is the `stopAudio` transition |
| Player.AudioPlayer.TogglePlay | components/AudioPlayer.tsx:69-72 | the new state is the `togglePlay` transition |
| Player.AudioPlayer.ResetPlayback | components/AudioPlayer.tsx:126 | the new state is stop followed by index 0 |
| Player.AudioPlayer.LoadAllBuffers | components/AudioPlayer.tsx:17-26 | the new state is the load transition; the decode loop stops at the first rejection |
| Player.AudioPlayer.BlobsChanged | components/AudioPlayer.tsx:28-31 | new payloads run the cleanup `stopAudio`, then reload |
| Player.PlayGuard | components/AudioPlayer.tsx:34 | `playSegment` does nothing without a context or without a buffer at the index |
| Player.PlayStarts | components/AudioPlayer.tsx:36-57 | otherwise the previous source is stopped and exactly one new source starts on buffer i, which becomes current, and `isPlaying` is set |
| Player.EndAdvances | components/AudioPlayer.tsx:44-47 | a natural end with a next buffer starts that buffer and moves the index to it |
| Player.EndOfLast | components/AudioPlayer.tsx:48-51 | a natural end of the last buffer stops playback and rewinds to 0 |
| Player.PlayThroughPrefix | components/AudioPlayer.tsx:33-58 | after k < n natural ends from segment 0, segment k plays and 0..k have each started once, in order |
| Player.PlayThrough | components/AudioPlayer.tsx:33-58 | from segment 0 with natural ends only, segments 0..n−1 start exactly once each, in order, then playback is stopped at 0 and stays so |
| Player.EndsRest | components/AudioPlayer.tsx:44-52 | once no source is playing, further ends change nothing |
| Player.StopProperties | components/AudioPlayer.tsx:60-67 | stop detaches the handler before stopping, forgets the source, clears `isPlaying`, keeps the index, and is idempotent |
| Player.NoAdvanceAfterStop | components/AudioPlayer.tsx:60-67 | after a stop no handler fires and no segment advances |
| Player.PauseResume | components/AudioPlayer.tsx:69-72 | pause then play resumes the same segment from a fresh source |
| Player.ToggleWhileStopped | components/AudioPlayer.tsx:69-72 | while stopped, `togglePlay` plays the current index |
| Player.ResetRewinds | components/AudioPlayer.tsx:126 | reset stops and rewinds; play after reset starts from segment 0 |
| Player.LoadProperties | components/AudioPlayer.tsx:17-26 | a context is created only when absent; the buffers are replaced wholesale by one decoded buffer per payload and the index resets, or stay as they were on a rejection |
| Player.ReachableKept | components/AudioPlayer.tsx:36-38 | every event and user action keeps the invariant; the stop at the start of `playSegment`, which leaves the old handler attached, only ever meets a source that has already ended |
| Player.PlayFromEnded | components/AudioPlayer.tsx:33-58 | starting a source over an absent or ended one leaves a reachable state |
| Player.DownloadPcm | components/AudioPlayer.tsx:76-84 | the download bytes are the payloads' bytes back to back, in payload order |
| TtsForm.TrimStartSpec | components/TTSForm.tsx:29 | only leading ECMAScript white space is removed, and the result starts with a non-space |
| TtsForm.TrimEndSpec | components/TTSForm.tsx:29 | only trailing white space is removed, and the result ends with a non-space |
| TtsForm.BlankIff | components/TTSForm.tsx:29 | the text trims to empty exactly when all its characters are white space |
| TtsForm.TrimKeepsCore | components/TTSForm.tsx:29 | trimming keeps exactly the text between the first and last non-space characters |
| TtsForm.AnalyzeBlankNoop | components/TTSForm.tsx:29 | blank text: analysing changes nothing |
| TtsForm.NormalizeVoices | components/TTSForm.tsx:38-41 | every character gets its suggested voice, or 'Kore' when that is empty, with length and order kept |
| TtsForm.NormalizedVoiceUsed | components/TTSForm.tsx:38-41 | the normalised voice is the one synthesis uses for the character |
| TtsForm.NormalizeIdempotent | components/TTSForm.tsx:38-41 | normalising twice changes nothing more |
| TtsForm.AnalyzeResult | components/TTSForm.tsx:28-49 | non-blank text: either the normalised analysis is stored and passed on, or the analysis error is set; processing ends either way |
| TtsForm.Form.HandleAnalyze | components/TTSForm.tsx:28-49 | the new state is the analyse transition |
| TtsForm.FindSpec | components/TTSForm.tsx:61 | the first character with the id, or none exactly when no character has it |
| TtsForm.SegmentAudioSource | components/TTSForm.tsx:60-65 | a segment's payload is non-empty and answers that segment's own request, for a character with its id, on one of at most six attempts |
| TtsForm.Leading | components/TTSForm.tsx:59-72 | the number of leading segments that get a payload: all before it succeed and the one at it fails |
| TtsForm.ProgressRounds | components/TTSForm.tsx:66 | progress is 100·done/n rounded to the nearest integer, halves up |
| TtsForm.ProgressProperties | components/TTSForm.tsx:66 | progress stays within 0..100, never decreases, and is 100 after the last segment |
| TtsForm.RenderSegments | components/TTSForm.tsx:56-72 | success exactly when every segment gets a payload, with parts[i] the payload of segment i; otherwise the synthesis error after the first failure; one progress value per finished segment; n−1 pauses of 1500 ms for n ≥ 1 |
| TtsForm.SynthesizedResult | components/TTSForm.tsx:73-78 | a failed segment hands no audio over and sets the error; a full run hands over one payload per segment; processing ends either way |
| TtsForm.Form.HandleSynthesize | components/TTSForm.tsx:51-79 | nothing without an analysis; otherwise the new state applies a run that succeeds exactly when every segment synthesizes, whose payload holds each segment's audio in order, whose error is the synthesis message, whose progress reads 0 then the share of segments done, and which pauses 1500 ms between segments |
| TtsForm.AssignVoice | components/TTSForm.tsx:85 | the characters with the id get the voice; all others, and all other fields, are unchanged |
| TtsForm.AssignedVoiceUsed | components/TTSForm.tsx:81-89 | a listed voice chosen for a character is the one synthesis then uses |
| TtsForm.AssignVoiceIdempotent | components/TTSForm.tsx:85 | choosing the same voice again changes nothing more |
| TtsForm.VoiceChosenOnly | components/TTSForm.tsx:81-89 | the voice edit changes only the characters and is passed to the parent |
| TtsForm.Form.UpdateCharacterVoice | components/TTSForm.tsx:81-89 | the new state is the voice-edit transition |
| TtsForm.SetIntensity | components/TTSForm.tsx:93-94 | the copy has the same length; only the segment at the index changes, and only its intensity |
| TtsForm.IntensityChosenOnly | components/TTSForm.tsx:91-96 | the intensity edit changes one segment's intensity and is not passed to the parent |
| TtsForm.Form.UpdateSegmentIntensity | components/TTSForm.tsx:91-96 | the new state is the intensity-edit transition |
| TtsForm.Form.EditText | components/TTSForm.tsx:128 | typing replaces the text and discards the analysis |
| TtsForm.Form.constructor | components/TTSForm.tsx:22-26 | empty text, no analysis, progress 0, no error |
| Panel.LowerChar | components/TextAnalysisPanel.tsx:12 | ASCII capitals map to their lower case; other characters are kept |
| Panel.Lower | components/TextAnalysisPanel.tsx:12 | lower-casing is character by character and keeps the length |
| Panel.LowerIdempotent | components/TextAnalysisPanel.tsx:12 | lower-casing twice changes nothing more |
| Panel.EmotionIcon | components/TextAnalysisPanel.tsx:11-18 | star exactly for a lower-cased positive word, rain cloud exactly for a negative one not in the positive list, lightning for everything else |
| Panel.IconIgnoresCase | components/TextAnalysisPanel.tsx:12 | classify(s) == classify(lower(s)) |
| Panel.IconOfCapitalised | components/TextAnalysisPanel.tsx:12 | capitalising the first letter does not change the icon |
| Panel.ListsDisjoint | components/TextAnalysisPanel.tsx:13-16 | no word is in both lists |
| Panel.ListedWords | components/TextAnalysisPanel.tsx:13-16 | a word of either list, in any letter case, gets its list's icon |
| Panel.EachListedWord | components/TextAnalysisPanel.tsx:13-16 | each of the 8 positive words gets the star and each of the 10 negative words the rain cloud |
| Panel.RowOf | components/TextAnalysisPanel.tsx:59-76 | a row shows the entry's icon, emotion and tone |
| Panel.PercentShown | components/TextAnalysisPanel.tsx:67-72 | label and bar width are the same `intensity*10` text ending in '%', and it determines the intensity |
| Panel.PercentOnScale | components/TextAnalysisPanel.tsx:67 | on the 1..10 scale the percentage prints without a sign |
| Panel.RecommendedVoice | components/TextAnalysisPanel.tsx:88 | the first emotion's suggested voice, or 'Zephyr' when there is none or it is empty |
| Panel.PanelView | components/TextAnalysisPanel.tsx:21-41 | processing wins over everything; otherwise no analysis gives the empty view and an analysis gives the results |
| Panel.ResultsContents | components/TextAnalysisPanel.tsx:41-95 | the results show the summary, one row per emotion in order, the recommended voice and the narration style |

## Left out

- The network calls to the speech and analysis services, and the API key. The speech service is a parameter answering
  (segment position, request, attempt number). `analyzeScript` is an analyser parameter of `TtsForm.Form.HandleAnalyze`.
  Its prompt and schema are not modelled.
- Real time. The `setTimeout` waits of `withRetry` and of the pacing are recorded as lists of delays.
- The status callbacks and status texts ("Throttled: …", "Performing: …", "Analyzing Script …"). They are display-only.
  The retry notices keep the attempt number they would print.
- `decodeAudioData`, `base64ToUint8Array` and `pcmToWav`. The player imports them from the service file, which
  does not define them. Decoding is a parameter that may fail, and the conversion to bytes is a parameter
  of `Player.DownloadPcm`. `pcmToWav` at 24000 Hz, the object URL and the link click of the download are not modelled.
- The `Blob` objects. `mergeAudioSegments` is modelled as the byte sequence of header then PCM.
- The Web Audio graph: `createBufferSource`, `connect`, the destination and the audio itself.
  The `ended` event is the explicit `Player.AudioPlayer.OnEnded` transition.
- The asynchronous interleavings of `loadAllBuffers` with playback.
- React's deferred state updates and stale closures. State setters take effect at once, and `togglePlay` reads the
  current `isPlaying`.
- TtsForm.Form.HandleAnalyze: the busy flag raised while the analyser runs is not a state of its own. The analyser is a
  synchronous parameter, so only the state after the handler returns is modelled.
- TtsForm.Form.HandleSynthesize: likewise for the busy flag and the progress reset before the loop starts.
- Rendering: class names, the segment counter and the queue bar.
- App.tsx and its tab switching.
- Floating point. `Math.round` is exact half-up rounding on rationals. Intensities are integers, so a non-integer
  `number` or a `NaN` from `parseInt` is not modelled.
- An error that is not an object. `error.message` on a thrown `null` or `undefined` would throw inside `catch`.
  Rejections carry an optional message instead.
- Panel.Lower: only ASCII letters are lower-cased. The only non-ASCII character that `toLowerCase` maps to an ASCII
  letter is the Kelvin sign, which becomes 'k'. No listed emotion word contains a 'k', so the classification does not
  change.
- TtsForm.SetIntensity: requires an index within the segment list. Its only caller, the slider, passes the index of
  a listed segment. An out-of-range index would make a sparse array in the source.
- TtsForm.Form.UpdateSegmentIntensity: requires the same, for the same reason.
- The panel's analysis shape (summary, emotion entries, narration style) is declared in `panel.dfy`. The type the
  panel imports does not exist in `types.ts`.

## Findings

| source | as written | input that shows it | evidently intended | confidence | as-written member | corrected member |
|---|---|---|---|---|---|---|
| services/geminiService.ts:24 | the retry notice carries `6 - retries`, a number only right for the default budget of five | `analyzeScript` runs `withRetry(…, 3, 2000, …)` (services/geminiService.ts:126); a call that is always rate-limited is announced as attempts 3, 4, 5 | the retries are numbered 1, 2, 3, … whatever the budget | not executed | Retry.ThreeRetriesMisnumbered | Retry.WithRetryCorrectedNotices |

`Retry.WithRetryNotices` states the as-written numbering in general. `Retry.CorrectionAgrees` proves that the
correction changes nothing but the labels. Synthesis uses the corrected policy, which equals the as-written one for
its five retries.
