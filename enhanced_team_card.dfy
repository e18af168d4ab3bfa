/**
 * The dashboard's team card: sentiment counts, a score, a three-step
 * indicator and the width of the score bar.
 */
module EnhancedTeamCard {
  import opened Domain

  datatype Counts = Counts(happy: nat, neutral: nat, sad: nat)

  /** `sentimentCounts`: how many members have each of the three sentiments. */
  function SentimentCounts(members: seq<Member>): (c: Counts)
    ensures c.happy + c.neutral + c.sad <= |members|
    ensures AllRecognised(members) <==> c.happy + c.neutral + c.sad == |members|
    ensures 3 * c.happy + 2 * c.neutral + c.sad == WeightedCount(members)
  {
    CountsPartition(members);
    Counts(CountOf(members, Happy), CountOf(members, Neutral), CountOf(members, Sad))
  }

  /** `sentimentScore`: the weighted mean over the members, 0 for no members. */
  function SentimentScore(members: seq<Member>): (score: real)
    ensures |members| == 0 ==> score == 0.0
    ensures |members| > 0 ==> score * (|members| as real) == WeightedCount(members) as real
    ensures 0.0 <= score <= 3.0
    ensures |members| > 0 && AllRecognised(members) ==> 1.0 <= score
  {
    if |members| > 0 then
      MeanScoreRange(members);
      MeanScore(members)
    else 0.0
  }

  datatype Indicator = Indicator(color: string, text: string, textColor: string, bgColor: string)

  const Strong := Indicator("bg-gradient-to-r from-blue-600 to-indigo-600", "Strong", "text-blue-700", "bg-blue-50/80")
  const Moderate := Indicator("bg-gradient-to-r from-slate-500 to-slate-600", "Moderate", "text-slate-700", "bg-slate-50/80")
  const AtRisk := Indicator("bg-gradient-to-r from-red-500 to-red-600", "At Risk", "text-red-700", "bg-red-50/80")

  /** `getSentimentIndicator`: inclusive lower bounds 2.5 and 2, first match wins. */
  function SentimentIndicator(score: real): (i: Indicator)
    ensures i == Strong <==> score >= 2.5
    ensures i == Moderate <==> 2.0 <= score < 2.5
    ensures i == AtRisk <==> score < 2.0
  {
    assert |Strong.text| == 6 && |Moderate.text| == 8 && |AtRisk.text| == 7;
    if score >= 2.5 then Strong else if score >= 2.0 then Moderate else AtRisk
  }

  /** The score bar's width in percent of the full bar. */
  function BarWidth(score: real): (w: real)
    ensures w * 3.0 == score * 100.0
    ensures 0.0 <= score <= 3.0 ==> 0.0 <= w <= 100.0
  {
    (score / 3.0) * 100.0
  }

  /** A card's score bar never overflows. */
  lemma CardBarWithinBounds(members: seq<Member>)
    ensures 0.0 <= BarWidth(SentimentScore(members)) <= 100.0
  {
  }

  /** A team without members scores 0, is At Risk and has an empty bar. */
  lemma EmptyTeamAtRisk()
    ensures SentimentScore([]) == 0.0
    ensures SentimentIndicator(SentimentScore([])) == AtRisk
    ensures BarWidth(SentimentScore([])) == 0.0
  {
  }

  /** A team of all-sad members is At Risk, an all-happy team Strong. */
  lemma UniformTeams(m: Member, k: nat)
    requires k > 0
    ensures m.sentiment == Sad ==> SentimentIndicator(SentimentScore(seq(k, _ => m))) == AtRisk
    ensures m.sentiment == Happy ==> SentimentIndicator(SentimentScore(seq(k, _ => m))) == Strong
  {
    var team := seq(k, _ => m);
    UniformCounts(m, k);
    var score, t, w := SentimentScore(team), k as real, WeightedCount(team) as real;
    assert score * t == w;
    if m.sentiment == Sad {
      assert w == 1.0 * t;
      CancelPositive(score, t, w, 1.0, 1.0);
    }
    if m.sentiment == Happy {
      assert w == 3.0 * t;
      CancelPositive(score, t, w, 3.0, 3.0);
    }
  }

  lemma {:induction false} UniformCounts(m: Member, k: nat)
    ensures WeightedCount(seq(k, _ => m)) ==
            k * (if m.sentiment == Happy then 3 else if m.sentiment == Neutral then 2
                 else if m.sentiment == Sad then 1 else 0)
    decreases k
  {
    var team := seq(k, _ => m);
    if k > 0 {
      UniformCounts(m, k - 1);
      assert team[1..] == seq(k - 1, _ => m);
    }
  }
}
