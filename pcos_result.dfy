/**
 * The results view: the score is turned back into a number, classified into
 * one of three risk bands at the thresholds 30 and 60, and shown with a
 * heading, an icon, a progress bar and an explanation. Each of these
 * presentation choices tests the thresholds on its own; the contracts below
 * tie every one of them to the same bands.
 */
module PcosResult {
  import opened Js
  import opened NumberText

  /** The score as the prediction service returned it: a JSON number, or text such as "45%". */
  datatype Score = Number(d: CanonicalDecimal) | Text(s: string)

  /** `score.toString()`: a number's text has no percent sign and reads back as the number. */
  function ScoreString(score: Score): (s: string)
    ensures score.Number? ==> '%' !in s && ParseFloat(s) == Num(NumberOf(score.d))
    ensures score.Number? ==> (s[0] == '-' <==> NumberOf(score.d) < 0.0)
  {
    match score
    case Number(d) =>
      RenderHasNoPercent(d);
      ParseFloatRender(d);
      Render(d)
    case Text(s) => s
  }

  /** `numericScore`: the score's text with its first percent sign removed, read with `parseFloat`. */
  function NumericScore(score: Score): (n: Value)
    ensures !n.Undefined?
    ensures score.Number? ==> n == Num(NumberOf(score.d))
  {
    ParseFloat(RemovePercent(ScoreString(score)))
  }

  /** A score sent as text with a trailing percent sign reads as the number before it. */
  lemma PercentTextScore(d: CanonicalDecimal)
    ensures NumericScore(Text(Render(d) + "%")) == Num(NumberOf(d))
  {
    var text := Render(d);
    RenderHasNoPercent(d);
    RemovePercentFirst(text, "");
    assert text + "%" + "" == text + "%" && text + "" == text;
    ParseFloatRender(d);
  }

  /** Text with no number in front reads as NaN. */
  lemma UnreadableTextScore()
    ensures NumericScore(Text("")) == NaN
    ensures NumericScore(Text("%")) == NaN
  {
  }

  // ---------------------------------------------------------------------
  // Bands and the table of what each band shows

  datatype Band = Low | Moderate | High

  /**
   * The bands as score intervals: below 30; from 30 up to but excluding 60;
   * 60 or more. A NaN score compares false with both thresholds and so
   * falls in the last band.
   */
  predicate InBand(n: Value, b: Band)
  {
    match b
    case Low => n.Num? && n.x < 30.0
    case Moderate => n.Num? && 30.0 <= n.x < 60.0
    case High => !n.Num? || 60.0 <= n.x
  }

  /** Every score lies in exactly one band. */
  lemma BandsPartition(n: Value)
    ensures InBand(n, Low) || InBand(n, Moderate) || InBand(n, High)
    ensures forall b1, b2 :: InBand(n, b1) && InBand(n, b2) ==> b1 == b2
  {
  }

  datatype Tone = Green | Amber | Red

  datatype Icon = CheckCircle | AlertCircle

  function LevelName(b: Band): string
  {
    match b
    case Low => "Low"
    case Moderate => "Moderate"
    case High => "High"
  }

  function ToneOf(b: Band): Tone
  {
    match b
    case Low => Green
    case Moderate => Amber
    case High => Red
  }

  function IconOf(b: Band): Icon
  {
    if b == Low then CheckCircle else AlertCircle
  }

  function ExplanationOf(b: Band): string
  {
    match b
    case Low => "Your symptoms suggest a lower likelihood of PCOS. However, this is not a medical diagnosis."
    case Moderate => "Your symptoms suggest a moderate likelihood of PCOS. Consider consulting with a healthcare provider."
    case High => "Your symptoms suggest a higher likelihood of PCOS. It's recommended to consult with a healthcare provider for proper evaluation."
  }

  // ---------------------------------------------------------------------
  // The view's own threshold tests

  datatype RiskLevel = RiskLevel(level: string, color: Tone)

  /** `getRiskLevel`: the band's name and heading colour. */
  function GetRiskLevel(n: Value): (risk: RiskLevel)
    ensures forall b :: InBand(n, b) ==> risk == RiskLevel(LevelName(b), ToneOf(b))
  {
    if Less(n, 30.0) then RiskLevel("Low", Green)
    else if Less(n, 60.0) then RiskLevel("Moderate", Amber)
    else RiskLevel("High", Red)
  }

  /** `getProgressColor`: the progress bar's colour. */
  function GetProgressColor(n: Value): (tone: Tone)
    ensures forall b :: InBand(n, b) ==> tone == ToneOf(b)
  {
    if Less(n, 30.0) then Green
    else if Less(n, 60.0) then Amber
    else Red
  }

  /** The icon above the heading and its colour. */
  function ResultIcon(n: Value): (icon: (Icon, Tone))
    ensures forall b :: InBand(n, b) ==> icon == (IconOf(b), ToneOf(b))
    ensures icon.0 == CheckCircle <==> Less(n, 30.0)
  {
    if Less(n, 30.0) then (CheckCircle, Green)
    else if Less(n, 60.0) then (AlertCircle, Amber)
    else (AlertCircle, Red)
  }

  /** The "What does this mean?" text. */
  function Explanation(n: Value): (text: string)
    ensures forall b :: InBand(n, b) ==> text == ExplanationOf(b)
  {
    if Less(n, 30.0) then ExplanationOf(Low)
    else if Less(n, 60.0) then ExplanationOf(Moderate)
    else ExplanationOf(High)
  }

  /** The classification at the boundaries and outside 0..100: nothing is clamped. */
  lemma RiskLevelBoundaries()
    ensures GetRiskLevel(Num(29.9)).level == "Low"
    ensures GetRiskLevel(Num(30.0)).level == "Moderate"
    ensures GetRiskLevel(Num(59.9)).level == "Moderate"
    ensures GetRiskLevel(Num(60.0)).level == "High"
    ensures GetRiskLevel(Num(-5.0)).level == "Low"
    ensures GetRiskLevel(Num(150.0)).level == "High"
    ensures GetRiskLevel(NaN).level == "High"
  {
  }

  // ---------------------------------------------------------------------
  // The whole view

  datatype ResultsView = ResultsView(
    icon: Icon, iconTone: Tone,
    heading: string, headingTone: Tone,
    shownScore: string,
    progressValue: Value, progressTone: Tone,
    explanation: string)

  /** What `ResultsDisplay` shows for a score. */
  function View(score: Score): (v: ResultsView)
    ensures v.shownScore == ScoreString(score)
    ensures v.progressValue == NumericScore(score)
    ensures score.Number? ==> v.progressValue == Num(NumberOf(score.d))
    ensures forall b :: InBand(NumericScore(score), b) ==>
      && v.icon == IconOf(b) && v.iconTone == ToneOf(b)
      && v.heading == LevelName(b) + " Risk" && v.headingTone == ToneOf(b)
      && v.progressTone == ToneOf(b)
      && v.explanation == ExplanationOf(b)
  {
    var n := NumericScore(score);
    var risk := GetRiskLevel(n);
    var icon := ResultIcon(n);
    ResultsView(
      icon.0, icon.1,
      risk.level + " Risk", risk.color,
      ScoreString(score),
      n, GetProgressColor(n),
      Explanation(n))
  }

  /** Nothing is clamped: the progress bar receives the score itself, and a score above 100 shows as high risk, a negative one as low risk. */
  lemma ViewIsUnclamped(d: CanonicalDecimal)
    ensures View(Number(d)).progressValue == Num(NumberOf(d))
    ensures NumberOf(d) > 100.0 ==> View(Number(d)).heading == "High Risk"
    ensures NumberOf(d) < 0.0 ==> View(Number(d)).heading == "Low Risk"
  {
    var n := Num(NumberOf(d));
    if NumberOf(d) > 100.0 {
      assert InBand(n, High);
      assert LevelName(High) + " Risk" == "High Risk";
    } else if NumberOf(d) < 0.0 {
      assert InBand(n, Low);
      assert LevelName(Low) + " Risk" == "Low Risk";
    }
  }

  /** Two numeric scores with the same value are shown identically, text included. */
  lemma ViewDependsOnlyOnValue(a: CanonicalDecimal, b: CanonicalDecimal)
    requires NumberOf(a) == NumberOf(b)
    ensures View(Number(a)) == View(Number(b))
  {
    CanonicalUnique(a, b);
  }
}
