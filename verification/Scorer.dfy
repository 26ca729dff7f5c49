/** Credit scores: the clamped model output and the deterministic fallback. */
module Scorer {
  import opened Borsh
  import opened Indices

  datatype CreditScore = CreditScore(aiScore: int, recommendedLtv: real, grade: string)

  predicate IsGrade(g: string) {
    g == "A" || g == "B" || g == "C" || g == "D"
  }

  /** What the database columns and the program's range checks admit. */
  predicate Valid(s: CreditScore) {
    0 <= s.aiScore <= 100 && 0.0 <= s.recommendedLtv <= 1.0 && IsGrade(s.grade)
  }

  type ValidScore = s: CreditScore | Valid(s) witness CreditScore(0, 0.0, "D")

  function Clamp(x: int, lo: int, hi: int): int {
    if x < lo then lo else if x > hi then hi else x
  }

  /** The tail of parseResponse: any model output becomes a valid score, and a
      valid one is left as it is. */
  method ClampResponse(aiScore: int, ltv: real, grade: string) returns (s: CreditScore)
    ensures Valid(s)
    ensures Valid(CreditScore(aiScore, ltv, grade)) ==> s == CreditScore(aiScore, ltv, grade)
    ensures s.aiScore == Clamp(aiScore, 0, 100)
    ensures IsGrade(grade) ==> s.grade == grade
    ensures !IsGrade(grade) ==> s.grade == "D"
    ensures ltv > 1.0 ==> s.recommendedLtv == 1.0
    ensures ltv < 0.0 ==> s.recommendedLtv == 0.0
    ensures 0.0 <= ltv <= 1.0 ==> s.recommendedLtv == ltv
  {
    var ai := if aiScore < 100 then aiScore else 100;
    ai := if ai > 0 then ai else 0;
    var l := if ltv < 1.0 then ltv else 1.0;
    l := if l > 0.0 then l else 0.0;
    var g := grade;
    if !IsGrade(g) {
      g := "D";
    }
    s := CreditScore(ai, l, g);
  }

  // ---------------------------------------------------------------- fallback

  datatype ScoringInput = ScoringInput(
    ndviHistory: seq<real>, trend: Option<Trend>, avgNdwi: Option<real>, avgEvi: Option<real>,
    landClass: int, activeLiens: int, dormantSeasons: int)

  function GradeFromScore(score: int): (string, real) {
    if score >= 80 then ("A", 0.7)
    else if score >= 60 then ("B", 0.5)
    else if score >= 40 then ("C", 0.3)
    else ("D", 0.1)
  }

  function TrendPoints(t: Option<Trend>): int {
    if t == Some(Improving) then 5 else if t == Some(Declining) then -5 else 0
  }

  function LandPoints(i: ScoringInput): int {
    (if Mean(i.ndviHistory) > 0.6 then 20 else 0)
    + (if i.activeLiens == 0 then 15 else 0)
    + (if i.landClass <= 3 then 10 else 0)
    - i.dormantSeasons * 10
  }

  function SeasonPoints(i: ScoringInput): int {
    (if i.avgNdwi.Some? && i.avgNdwi.value < -0.3 then -10 else 0)
    + (if i.avgEvi.Some? && i.avgEvi.value > 0.4 then 5 else 0)
    + TrendPoints(i.trend)
  }

  function Points(i: ScoringInput): int {
    50 + LandPoints(i) + SeasonPoints(i)
  }

  function Fallback(i: ScoringInput): CreditScore {
    var ai := Clamp(Points(i), 0, 100);
    var (grade, ltv) := GradeFromScore(ai);
    CreditScore(ai, ltv, grade)
  }

  method FallbackScore(input: ScoringInput) returns (s: CreditScore)
    ensures s == Fallback(input) && Valid(s)
  {
    var score := 50;
    var avgNdvi := Avg(input.ndviHistory);
    if avgNdvi > 0.6 {
      score := score + 20;
    }
    if input.activeLiens == 0 {
      score := score + 15;
    }
    if input.landClass <= 3 {
      score := score + 10;
    }
    score := score - input.dormantSeasons * 10;
    assert score == 50 + LandPoints(input);
    if input.avgNdwi.Some? && input.avgNdwi.value < -0.3 {
      score := score - 10;
    }
    if input.avgEvi.Some? && input.avgEvi.value > 0.4 {
      score := score + 5;
    }
    if input.trend == Some(Improving) {
      score := score + 5;
    } else if input.trend == Some(Declining) {
      score := score - 5;
    }
    if score < 0 {
      score := 0;
    }
    if score > 100 {
      score := 100;
    }
    var (grade, ltv) := GradeFromScore(score);
    s := CreditScore(score, ltv, grade);
  }

  /** Parcel j is at least as good as parcel i on every count. */
  predicate AtLeastAsGood(i: ScoringInput, j: ScoringInput) {
    && Mean(i.ndviHistory) <= Mean(j.ndviHistory)
    && (i.activeLiens == 0 ==> j.activeLiens == 0)
    && j.landClass <= i.landClass && j.dormantSeasons <= i.dormantSeasons
    && (j.avgNdwi.Some? ==> i.avgNdwi.Some? && i.avgNdwi.value <= j.avgNdwi.value)
    && (i.avgEvi.Some? ==> j.avgEvi.Some? && i.avgEvi.value <= j.avgEvi.value)
    && TrendPoints(i.trend) <= TrendPoints(j.trend)
  }

  /** A parcel at least as good on every count is never scored, nor lent against,
      lower. */
  lemma FallbackMonotone(i: ScoringInput, j: ScoringInput)
    requires AtLeastAsGood(i, j)
    ensures Fallback(i).aiScore <= Fallback(j).aiScore
    ensures Fallback(i).recommendedLtv <= Fallback(j).recommendedLtv
  {
    assert Points(i) <= Points(j);
  }

  /** A parcel nothing is known about, with a lien, poor land and no dormancy. */
  predicate Neutral(i: ScoringInput) {
    && i.ndviHistory == [] && i.trend == None && i.avgNdwi == None && i.avgEvi == None
    && i.activeLiens != 0 && i.landClass > 3 && i.dormantSeasons == 0
  }

  /** What each fact is worth: the neutral parcel has 50 points, and each fact moves
      any parcel's points by its own amount, independently of the others. */
  lemma LandFactsAreWorth(i: ScoringInput, history: seq<real>, seasons: int)
    ensures Neutral(i) ==> Points(i) == 50
    ensures Points(i.(ndviHistory := history)) - Points(i.(ndviHistory := []))
            == if Mean(history) > 0.6 then 20 else 0
    ensures Points(i.(activeLiens := 0)) - Points(i.(activeLiens := 1)) == 15
    ensures Points(i.(landClass := 3)) - Points(i.(landClass := 4)) == 10
    ensures Points(i.(dormantSeasons := seasons)) == Points(i.(dormantSeasons := 0)) - 10 * seasons
  {
  }

  /** The same for the readings of the season. */
  lemma SeasonFactsAreWorth(i: ScoringInput, ndwi: real, evi: real)
    ensures Points(i.(avgNdwi := Some(ndwi))) - Points(i.(avgNdwi := None)) == if ndwi < -0.3 then -10 else 0
    ensures Points(i.(avgEvi := Some(evi))) - Points(i.(avgEvi := None)) == if evi > 0.4 then 5 else 0
    ensures Points(i.(trend := Some(Improving))) - Points(i.(trend := None)) == 5
    ensures Points(i.(trend := Some(Declining))) - Points(i.(trend := None)) == -5
    ensures Points(i.(trend := Some(Stable))) == Points(i.(trend := None))
  {
  }

  /** Grade and LTV follow from the points, before they are clamped to a score. */
  lemma GradeByPoints(i: ScoringInput)
    ensures Fallback(i).aiScore == if Points(i) < 0 then 0 else if Points(i) > 100 then 100 else Points(i)
    ensures Fallback(i).grade == "A" <==> Points(i) >= 80
    ensures Fallback(i).grade == "B" <==> 60 <= Points(i) < 80
    ensures Fallback(i).grade == "C" <==> 40 <= Points(i) < 60
    ensures Fallback(i).grade == "D" <==> Points(i) < 40
    ensures Fallback(i).recommendedLtv == match Fallback(i).grade[0] case 'A' => 0.7 case 'B' => 0.5 case 'C' => 0.3 case _ => 0.1
  {
  }
}
