/**
 * The application scores sentiment on one 1-to-3 scale but labels it with
 * three different ladders: the chart classification (six steps), the teams
 * table badge (2.5 / 2.0 / 1.5) and the dashboard card indicator (2.5 / 2).
 * These lemmas compare them.
 */
module Ladders {
  import ChartUtils
  import TeamCard
  import EnhancedTeamCard

  /** The one boundary all three ladders share is 2.0: at or above it the
      chart says at least Moderate, the badge at least Good and the card at
      least Moderate; below it none of them does. */
  lemma SharedBoundaryAtTwo(score: real)
    ensures score >= 2.0 <==> ChartUtils.Rank(score) >= 3
    ensures score >= 2.0 <==> TeamCard.CardRank(score) >= 2
    ensures score >= 2.0 <==> EnhancedTeamCard.SentimentIndicator(score) != EnhancedTeamCard.AtRisk
  {
    ChartUtils.ClassifyLadder(score);
    var r := ChartUtils.Rank(score);
    var name := ChartUtils.Classify(score).labelText;
    assert name == ChartUtils.Config[|ChartUtils.Config| - 1 - r].labelText;
    assert ChartUtils.Config[0].labelText == "Excellent" && ChartUtils.Config[1].labelText == "Good";
    assert ChartUtils.Config[2].labelText == "Moderate" && ChartUtils.Config[3].labelText == "Neutral";
    assert ChartUtils.Config[4].labelText == "Needs Attention" && ChartUtils.Config[5].labelText == "Critical";
    assert |"Excellent"| == 9 && |"Good"| == 4 && |"Moderate"| == 8;
    assert |"Neutral"| == 7 && |"Needs Attention"| == 15 && |"Critical"| == 8;
    assert "Moderate"[0] != "Critical"[0];
  }

  /** Elsewhere they disagree, sometimes on the very same word: 2.5 is only
      Good on the chart but Excellent on the badge, and 1.6 is Neutral on
      the badge but Needs Attention on the chart. */
  lemma LaddersDisagree()
    ensures ChartUtils.Classify(2.5).labelText == "Good"
    ensures TeamCard.SentimentData(2.5).labelText == "Excellent"
    ensures EnhancedTeamCard.SentimentIndicator(2.5).text == "Strong"
    ensures ChartUtils.Classify(1.6).labelText == "Needs Attention"
    ensures TeamCard.SentimentData(1.6).labelText == "Neutral"
    ensures ChartUtils.Classify(1.2).labelText == "Critical"
    ensures TeamCard.SentimentData(1.2).labelText == "Needs Attention"
  {
    ChartUtils.ClassifyLadder(2.5);
    ChartUtils.ClassifyLadder(1.6);
    ChartUtils.ClassifyLadder(1.2);
  }

  /** At the top of the scale all three agree. */
  lemma TopOfScaleAgrees(score: real)
    requires score >= 2.7
    ensures ChartUtils.Classify(score).labelText == "Excellent"
    ensures TeamCard.SentimentData(score) == TeamCard.ExcellentCard
    ensures EnhancedTeamCard.SentimentIndicator(score) == EnhancedTeamCard.Strong
  {
    ChartUtils.ClassifyLadder(score);
  }
}
