/**
 * The teams table: each row's sentiment badge (its own four-step ladder),
 * the member-mix progress bar, and the row's average, loaded from a provider
 * or computed from the members.
 */
module TeamCard {
  import opened Domain

  /** The classes, label and emoji a badge shows. */
  datatype CardSentiment = CardSentiment(
    color: string, textColor: string, bgColor: string, borderColor: string,
    labelText: string, emoji: string)

  /** All four classes of a badge use one Tailwind colour family. */
  function CardOf(family: string, labelText: string, emoji: string): (c: CardSentiment)
    ensures c.color == "bg-" + family + "-500" && c.textColor == "text-" + family + "-700"
    ensures c.bgColor == "bg-" + family + "-50" && c.borderColor == "border-" + family + "-200"
    ensures c.labelText == labelText && c.emoji == emoji
  {
    CardSentiment("bg-" + family + "-500", "text-" + family + "-700",
                  "bg-" + family + "-50", "border-" + family + "-200", labelText, emoji)
  }

  const ExcellentCard := CardOf("emerald", "Excellent", "\U{1F60A}")
  const GoodCard := CardOf("green", "Good", "\U{1F642}")
  const NeutralCard := CardOf("yellow", "Neutral", "\U{1F610}")
  const AttentionCard := CardOf("red", "Needs Attention", "\U{1F61F}")

  /** `getSentimentData`: inclusive lower bounds 2.5, 2.0 and 1.5, first match wins. */
  function SentimentData(avg: real): (d: CardSentiment)
    ensures d == ExcellentCard <==> avg >= 2.5
    ensures d == GoodCard <==> 2.0 <= avg < 2.5
    ensures d == NeutralCard <==> 1.5 <= avg < 2.0
    ensures d == AttentionCard <==> avg < 1.5
  {
    assert |ExcellentCard.labelText| == 9 && |GoodCard.labelText| == 4;
    assert |NeutralCard.labelText| == 7 && |AttentionCard.labelText| == 15;
    if avg >= 2.5 then ExcellentCard
    else if avg >= 2.0 then GoodCard
    else if avg >= 1.5 then NeutralCard
    else AttentionCard
  }

  /** The badge's position on the ladder, from needs attention (0) to
      excellent (3). */
  function CardRank(avg: real): (r: nat)
    ensures r <= 3
    ensures SentimentData(avg) == [AttentionCard, NeutralCard, GoodCard, ExcellentCard][r]
  {
    if avg >= 2.5 then 3 else if avg >= 2.0 then 2 else if avg >= 1.5 then 1 else 0
  }

  /** The badge only moves up as the average does. */
  lemma CardMonotone(a: real, b: real)
    requires a <= b
    ensures CardRank(a) <= CardRank(b)
    ensures CardRank(a) == CardRank(b) ==> SentimentData(a) == SentimentData(b)
  {
  }

  /** What `SentimentProgressBar` shows: "No data", or the three counts and
      their shares of the team in percent. */
  datatype ProgressBar =
    | NoData
    | Bars(happy: nat, neutral: nat, sad: nat, happyPercent: real, neutralPercent: real, sadPercent: real)

  function Percent(count: nat, total: nat): (p: real)
    requires 0 < total && count <= total
    ensures p * (total as real) == 100.0 * (count as real)
    ensures 0.0 <= p <= 100.0
  {
    QuotientBetween(count as real, total as real, 0.0, 1.0);
    (count as real / total as real) * 100.0
  }

  /** The bar for three counts out of a non-empty team. */
  function BarsOf(h: nat, n: nat, s: nat, total: nat): (b: ProgressBar)
    requires 0 < total && h <= total && n <= total && s <= total
    ensures b.Bars? && b.happy == h && b.neutral == n && b.sad == s
    ensures b.happyPercent * (total as real) == 100.0 * (h as real)
    ensures b.neutralPercent * (total as real) == 100.0 * (n as real)
    ensures b.sadPercent * (total as real) == 100.0 * (s as real)
  {
    Bars(h, n, s, Percent(h, total), Percent(n, total), Percent(s, total))
  }

  function ProgressBarOf(members: seq<Member>): (b: ProgressBar)
    ensures b.NoData? <==> |members| == 0
    ensures b.Bars? ==> b == BarsOf(CountOf(members, Happy), CountOf(members, Neutral),
                                    CountOf(members, Sad), |members|)
  {
    if |members| == 0 then NoData
    else BarsOf(CountOf(members, Happy), CountOf(members, Neutral), CountOf(members, Sad), |members|)
  }

  /** When every member has one of the three sentiments the counts add up to
      the team size and the three segments fill the bar exactly. */
  lemma ProgressBarFills(members: seq<Member>)
    requires |members| > 0 && AllRecognised(members)
    ensures var b := ProgressBarOf(members);
            b.happy + b.neutral + b.sad == |members|
            && b.happyPercent + b.neutralPercent + b.sadPercent == 100.0
  {
    CountsPartition(members);
    var b := ProgressBarOf(members);
    PercentsFill(b.happy, b.neutral, b.sad, |members|);
  }

  lemma PercentsFill(h: nat, n: nat, s: nat, total: nat)
    requires 0 < total && h + n + s == total
    ensures var b := BarsOf(h, n, s, total);
            b.happyPercent + b.neutralPercent + b.sadPercent == 100.0
  {
    var b := BarsOf(h, n, s, total);
    var t := total as real;
    var sum := b.happyPercent + b.neutralPercent + b.sadPercent;
    Distribute(b.happyPercent, b.neutralPercent, b.sadPercent, t);
    assert (h as real) + (n as real) + (s as real) == t;
    CancelPositive(sum, t, 100.0 * t, 100.0, 100.0);
  }

  lemma Distribute(a: real, b: real, c: real, t: real)
    ensures (a + b + c) * t == a * t + b * t + c * t
  {
  }

  /** Where the row's average comes from on one run of its effect. */
  datatype AverageSource = NoProvider | ProviderReturned(avg: real) | ProviderThrew

  /** The value `sentimentAvg` holds after one run of the effect, given the
      value before it. With no provider and no members nothing is set. */
  function NextAverage(prev: real, members: seq<Member>, source: AverageSource): (avg: real)
    ensures source.ProviderReturned? ==> avg == source.avg
    ensures source.ProviderThrew? ==> avg == 0.0
    ensures source.NoProvider? && |members| > 0 ==> avg == MeanScore(members)
    ensures source.NoProvider? && |members| == 0 ==> avg == prev
  {
    match source
    case ProviderReturned(a) => a
    case ProviderThrew => 0.0
    case NoProvider => if |members| > 0 then MeanScore(members) else prev
  }

  /** The fallback average stays within the weights, and within [1, 3] when
      every member has one of the three sentiments. */
  lemma FallbackAverageRange(prev: real, members: seq<Member>)
    requires |members| > 0
    ensures 0.0 <= NextAverage(prev, members, NoProvider) <= 3.0
    ensures AllRecognised(members) ==> 1.0 <= NextAverage(prev, members, NoProvider)
  {
    MeanScoreRange(members);
  }

  /** As written: an effect run for a team that has become empty keeps the
      average of the members it had before, so the badge still shows it. */
  lemma EmptiedTeamKeepsOldAverage()
    ensures NextAverage(3.0, [], NoProvider) == 3.0
    ensures SentimentData(NextAverage(3.0, [], NoProvider)) == ExcellentCard
    ensures NextAverage(3.0, [], NoProvider) != NextAverage(0.0, [], NoProvider)
  {
  }

  /** The average the row should hold: the fallback for an empty team is 0,
      as for a team seen for the first time. */
  function NextAverageFixed(prev: real, members: seq<Member>, source: AverageSource): (avg: real)
    ensures source.NoProvider? && |members| == 0 ==> avg == 0.0
    ensures !(source.NoProvider? && |members| == 0) ==> avg == NextAverage(prev, members, source)
  {
    if source.NoProvider? && |members| == 0 then 0.0 else NextAverage(prev, members, source)
  }

  /** Corrected: the average no longer depends on what the row showed before,
      and an empty team is shown as Needs Attention. */
  lemma FixedAverageIgnoresHistory(p1: real, p2: real, members: seq<Member>, source: AverageSource)
    ensures NextAverageFixed(p1, members, source) == NextAverageFixed(p2, members, source)
    ensures source.NoProvider? && |members| == 0 ==>
              SentimentData(NextAverageFixed(p1, members, source)) == AttentionCard
  {
  }

  /** The state of one `TeamRow`. */
  class TeamRow {
    var sentimentAvg: real
    var isLoading: bool

    constructor ()
      ensures sentimentAvg == 0.0 && isLoading
    {
      sentimentAvg, isLoading := 0.0, true;
    }

    /** One run of the effect: loading is set, the average is updated from
        the source, and loading is cleared on every path. */
    method Refresh(members: seq<Member>, source: AverageSource)
      modifies this
      ensures sentimentAvg == NextAverage(old(sentimentAvg), members, source)
      ensures !isLoading
    {
      isLoading := true;
      match source {
        case ProviderReturned(a) =>
          sentimentAvg := a;
        case ProviderThrew =>
          sentimentAvg := 0.0;
        case NoProvider =>
          if |members| > 0 {
            sentimentAvg := MeanScore(members);
          }
      }
      isLoading := false;
    }

    /** The badge the row renders. */
    function Badge(): (d: CardSentiment)
      reads this
      ensures d == SentimentData(sentimentAvg)
      ensures sentimentAvg == 0.0 ==> d == AttentionCard
    {
      SentimentData(sentimentAvg)
    }
  }

  /** A new row, or one whose provider threw, shows Needs Attention. */
  method FreshOrFailedRowNeedsAttention(members: seq<Member>) returns (initial: CardSentiment, failed: CardSentiment)
    ensures initial == AttentionCard && failed == AttentionCard
  {
    var row := new TeamRow();
    initial := row.Badge();
    row.Refresh(members, ProviderThrew);
    failed := row.Badge();
  }
}
