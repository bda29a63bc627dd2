// The analysis panel: the icon chosen for an emotion, the intensity bar and
// percentage, the recommended voice, and which of the three views is shown.
//
// The panel reads an analysis with a summary, a list of emotion entries and
// a narration style; that shape is declared here, since the type the panel
// imports is not among the shared declarations.

module Panel {
  import opened Types
  import Synthesis

  datatype EmotionEntry = EmotionEntry(emotion: string, tone: string, intensity: int, suggestedVoice: string)

  datatype StoryAnalysis = StoryAnalysis(summary: string, emotions: seq<EmotionEntry>, narrationStyle: string)

  // ---------------------------------------------------------------------
  // Lower-casing
  // ---------------------------------------------------------------------

  /** `toLowerCase` on one character, for the ASCII letters. */
  function LowerChar(c: char): (r: char)
    ensures 'A' <= c <= 'Z' ==> r as int == c as int + 32
    ensures !('A' <= c <= 'Z') ==> r == c
  {
    if 'A' <= c <= 'Z' then (c as int + 32) as char else c
  }

  function Lower(s: string): (r: string)
    ensures |r| == |s| && forall i :: 0 <= i < |s| ==> r[i] == LowerChar(s[i])
  {
    seq(|s|, i requires 0 <= i < |s| => LowerChar(s[i]))
  }

  /** Lower-casing a lower-cased string changes nothing. */
  lemma LowerIdempotent(s: string)
    ensures Lower(Lower(s)) == Lower(s)
  {
  }

  /** A string whose letters are all lower case is its own lower-casing. */
  lemma LowerOfLower(s: string)
    requires forall i :: 0 <= i < |s| ==> !('A' <= s[i] <= 'Z')
    ensures Lower(s) == s
  {
  }

  // ---------------------------------------------------------------------
  // The emotion icon
  // ---------------------------------------------------------------------

  /** Star for a positive emotion, rain cloud for a negative one, lightning for anything else. */
  datatype Icon = Star | CloudRain | Zap

  const PositiveEmotions: seq<string> :=
    ["happiness", "gratitude", "love", "excitement", "pride", "relief", "amusement", "euphoria"]

  const NegativeEmotions: seq<string> :=
    ["sadness", "anger", "fear", "disgust", "shame", "jealousy", "boredom", "frustration", "bitterness", "melancholy"]

  /** `getEmotionIcon`: the lower-cased name is looked up in the positive list, then in the negative list. */
  function EmotionIcon(emotion: string): (r: Icon)
    ensures r == Star <==> Lower(emotion) in PositiveEmotions
    ensures r == CloudRain <==> Lower(emotion) !in PositiveEmotions && Lower(emotion) in NegativeEmotions
    ensures r == Zap <==> Lower(emotion) !in PositiveEmotions && Lower(emotion) !in NegativeEmotions
  {
    var e := Lower(emotion);
    if e in PositiveEmotions then Star
    else if e in NegativeEmotions then CloudRain
    else Zap
  }

  /** The classification ignores letter case. */
  lemma IconIgnoresCase(emotion: string)
    ensures EmotionIcon(emotion) == EmotionIcon(Lower(emotion))
  {
    LowerIdempotent(emotion);
  }

  /** The first letter's case makes no difference either way. */
  lemma IconOfCapitalised(c: char, rest: string)
    requires 'a' <= c <= 'z'
    ensures EmotionIcon([(c as int - 32) as char] + rest) == EmotionIcon([c] + rest)
  {
    var upper := [(c as int - 32) as char] + rest;
    var lower := [c] + rest;
    assert Lower(upper) == Lower(lower) by {
      assert forall i :: 0 <= i < |upper| ==> LowerChar(upper[i]) == LowerChar(lower[i]);
    }
  }

  /** No emotion is in both lists, so a negative-list emotion always gets the rain cloud. */
  lemma ListsDisjoint()
    ensures forall w :: w in PositiveEmotions ==> w !in NegativeEmotions
  {
  }

  /** Every listed word, in any letter case, gets the icon of its list. */
  lemma ListedWords(emotion: string)
    ensures Lower(emotion) in PositiveEmotions ==> EmotionIcon(emotion) == Star
    ensures Lower(emotion) in NegativeEmotions ==> EmotionIcon(emotion) == CloudRain
  {
    ListsDisjoint();
  }

  /** Each of the positive words itself is classified positive, each negative word negative. */
  lemma EachListedWord()
    ensures forall i :: 0 <= i < |PositiveEmotions| ==> EmotionIcon(PositiveEmotions[i]) == Star
    ensures forall i :: 0 <= i < |NegativeEmotions| ==> EmotionIcon(NegativeEmotions[i]) == CloudRain
  {
    ListsDisjoint();
    forall i | 0 <= i < |PositiveEmotions| ensures EmotionIcon(PositiveEmotions[i]) == Star {
      LowerOfLower(PositiveEmotions[i]);
    }
    forall i | 0 <= i < |NegativeEmotions| ensures EmotionIcon(NegativeEmotions[i]) == CloudRain {
      LowerOfLower(NegativeEmotions[i]);
    }
  }

  // ---------------------------------------------------------------------
  // One row of the emotion spectrum
  // ---------------------------------------------------------------------

  /** What one emotion entry shows: its icon, the percentage label and the bar's CSS width. */
  datatype Row = Row(icon: Icon, emotion: string, tone: string, percentLabel: string, barWidth: string)

  /** `${intensity * 10}%`. */
  function Percent(intensity: int): string {
    Synthesis.IntToString(intensity * 10) + "%"
  }

  function RowOf(entry: EmotionEntry): (r: Row)
    ensures r.icon == EmotionIcon(entry.emotion) && r.emotion == entry.emotion && r.tone == entry.tone
  {
    Row(EmotionIcon(entry.emotion), entry.emotion, entry.tone, Percent(entry.intensity), Percent(entry.intensity))
  }

  /**
   * The label and the bar width are the same text, ending in a percent sign,
   * and that text determines the intensity: two entries show the same
   * percentage exactly when their intensities agree.
   */
  lemma PercentShown(a: EmotionEntry, b: EmotionEntry)
    ensures RowOf(a).percentLabel == RowOf(a).barWidth
    ensures |RowOf(a).percentLabel| > 1 && RowOf(a).percentLabel[|RowOf(a).percentLabel| - 1] == '%'
    ensures RowOf(a).percentLabel == RowOf(b).percentLabel <==> a.intensity == b.intensity
  {
    var sa, sb := Synthesis.IntToString(a.intensity * 10), Synthesis.IntToString(b.intensity * 10);
    Synthesis.IntToStringSign(a.intensity * 10);
    if RowOf(a).percentLabel == RowOf(b).percentLabel {
      assert sa == (sa + "%")[..|sa|] == (sb + "%")[..|sb|] == sb;
      Synthesis.IntToStringInjective(a.intensity * 10, b.intensity * 10);
    }
  }

  /** On the 1 to 10 scale the percentage is printed without a sign. */
  lemma PercentOnScale(intensity: int)
    requires 1 <= intensity <= 10
    ensures Percent(intensity) == Synthesis.NatToString(intensity * 10) + "%"
    ensures Percent(intensity)[0] != '-'
  {
  }

  // ---------------------------------------------------------------------
  // The recommended voice and the view
  // ---------------------------------------------------------------------

  const FallbackVoice := "Zephyr"

  /** `analysis.emotions[0]?.suggestedVoice || 'Zephyr'`. */
  function RecommendedVoice(analysis: StoryAnalysis): (v: string)
    ensures v != ""
    ensures |analysis.emotions| > 0 && analysis.emotions[0].suggestedVoice != "" ==> v == analysis.emotions[0].suggestedVoice
    ensures |analysis.emotions| == 0 || analysis.emotions[0].suggestedVoice == "" ==> v == FallbackVoice
  {
    if |analysis.emotions| > 0 && analysis.emotions[0].suggestedVoice != "" then analysis.emotions[0].suggestedVoice
    else FallbackVoice
  }

  /** The panel's three renderings. */
  datatype View =
    | Decoding
    | EmptyState
    | Results(summary: string, rows: seq<Row>, recommendedVoice: string, narrationStyle: string)

  function PanelView(analysis: Option<StoryAnalysis>, isProcessing: bool): (v: View)
    ensures v.Decoding? <==> isProcessing
    ensures v.EmptyState? <==> !isProcessing && analysis.None?
    ensures v.Results? <==> !isProcessing && analysis.Some?
  {
    if isProcessing then Decoding
    else match analysis
      case None => EmptyState
      case Some(a) => Results(a.summary, seq(|a.emotions|, i requires 0 <= i < |a.emotions| => RowOf(a.emotions[i])), RecommendedVoice(a), a.narrationStyle)
  }

  /** The results view shows one row per emotion entry, in order, and the recommended voice. */
  lemma ResultsContents(a: StoryAnalysis)
    ensures var v := PanelView(Some(a), false);
      && v.Results? && v.summary == a.summary && v.narrationStyle == a.narrationStyle
      && |v.rows| == |a.emotions|
      && (forall i :: 0 <= i < |a.emotions| ==>
            v.rows[i].icon == EmotionIcon(a.emotions[i].emotion) && v.rows[i].percentLabel == Percent(a.emotions[i].intensity))
      && v.recommendedVoice == RecommendedVoice(a)
  {
  }
}
