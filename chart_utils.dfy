/**
 * The sentiment classification table, the answer weights and the colour
 * styles of the chart utilities, with the first-match classification.
 */
module ChartUtils {
  import opened Domain

  /** One entry of the classification table: an inclusive lower bound on the
      score, the label shown and the colour family used to draw it. */
  datatype Band = Band(threshold: real, labelText: string, color: string)

  /** What a classification returns: the entry's label and colour, and the
      score it was computed from. */
  datatype Classification = Classification(labelText: string, color: string, score: real)

  const ExcellentBand := Band(2.7, "Excellent", "emerald")
  const GoodBand := Band(2.3, "Good", "green")
  const ModerateBand := Band(2.0, "Moderate", "blue")
  const NeutralBand := Band(1.7, "Neutral", "yellow")
  const PoorBand := Band(1.3, "Needs Attention", "orange")
  const CriticalBand := Band(0.0, "Critical", "red")

  /** The table in declaration order, which is also descending threshold
      order, so sorting it by descending threshold leaves it as it is. */
  const Config: seq<Band> := [ExcellentBand, GoodBand, ModerateBand, NeutralBand, PoorBand, CriticalBand]

  /** The weight each answer carries in a weighted average. */
  const HappyWeight := 3
  const NeutralWeight := 2
  const SadWeight := 1

  predicate StrictlyDescending(bands: seq<Band>) {
    forall i, j :: 0 <= i < j < |bands| ==> bands[j].threshold < bands[i].threshold
  }

  /** The declared table is in strictly descending threshold order, so a sort
      by descending threshold returns it unchanged. */
  lemma ConfigStrictlyDescending()
    ensures StrictlyDescending(Config)
  {
  }

  /** The first-match search over a table: the index of the first entry whose
      threshold the score reaches, or None when it reaches none. */
  function FirstReached(bands: seq<Band>, score: real): (r: Option<nat>)
    ensures r.Some? ==> r.value < |bands| && bands[r.value].threshold <= score
    ensures r.Some? ==> forall j :: 0 <= j < r.value ==> score < bands[j].threshold
    ensures r.None? <==> forall j :: 0 <= j < |bands| ==> score < bands[j].threshold
  {
    if bands == [] then None
    else if score >= bands[0].threshold then Some(0)
    else
      match FirstReached(bands[1..], score)
      case None => None
      case Some(k) => Some(k + 1)
  }

  /** Index into Config of the entry a score is classified under: the first
      match, or the Critical entry when the loop finds none. */
  function BandIndex(score: real): (i: nat)
    ensures i < |Config|
    ensures Config[i].threshold <= score || i == |Config| - 1
  {
    match FirstReached(Config, score)
    case Some(k) => k
    case None => |Config| - 1
  }

  /** `getSentimentClassification` */
  function Classify(score: real): (c: Classification)
    ensures c.score == score
    ensures exists i :: 0 <= i < |Config| && c.labelText == Config[i].labelText && c.color == Config[i].color
  {
    var b := Config[BandIndex(score)];
    Classification(b.labelText, b.color, score)
  }

  /** In a strictly descending table the first match is the entry with the
      largest threshold the score reaches. */
  lemma {:induction false} FirstReachedIsLargest(bands: seq<Band>, score: real, j: nat)
    requires StrictlyDescending(bands)
    requires j < |bands| && bands[j].threshold <= score
    ensures FirstReached(bands, score).Some?
    ensures bands[j].threshold <= bands[FirstReached(bands, score).value].threshold
  {
    var i := FirstReached(bands, score).value;
    assert i <= j;
  }

  /** A higher score never reaches a later entry of a descending table. */
  lemma {:induction false} FirstReachedMonotone(bands: seq<Band>, s1: real, s2: real)
    requires StrictlyDescending(bands)
    requires s1 <= s2
    requires FirstReached(bands, s1).Some?
    ensures FirstReached(bands, s2).Some?
    ensures FirstReached(bands, s2).value <= FirstReached(bands, s1).value
  {
    var i := FirstReached(bands, s1).value;
    assert bands[i].threshold <= s2;
  }

  /** A negative score reaches no entry, and the fallback makes it Critical. */
  lemma NegativeIsCritical(score: real)
    requires score < 0.0
    ensures FirstReached(Config, score).None?
    ensures Classify(score).labelText == "Critical" && Classify(score).color == "red"
  {
    forall j | 0 <= j < |Config| ensures score < Config[j].threshold {
      assert Config[j].threshold >= 0.0;
    }
  }

  /** The label is that of the entry with the largest threshold not above the
      score; a non-negative score always reaches one. */
  lemma ClassifyPicksLargestThreshold(score: real)
    ensures score >= 0.0 ==> FirstReached(Config, score).Some?
    ensures forall j :: 0 <= j < |Config| && Config[j].threshold <= score ==>
              Config[j].threshold <= Config[BandIndex(score)].threshold
  {
    ConfigStrictlyDescending();
    if score >= 0.0 {
      assert Config[5].threshold <= score;
      FirstReachedIsLargest(Config, score, 5);
    }
    forall j | 0 <= j < |Config| && Config[j].threshold <= score
      ensures Config[j].threshold <= Config[BandIndex(score)].threshold
    {
      FirstReachedIsLargest(Config, score, j);
    }
  }

  /** The ladder written out: each threshold is an inclusive lower bound. */
  lemma ClassifyLadder(score: real)
    ensures score >= 2.7 ==> Classify(score).labelText == "Excellent" && Classify(score).color == "emerald"
    ensures 2.3 <= score < 2.7 ==> Classify(score).labelText == "Good" && Classify(score).color == "green"
    ensures 2.0 <= score < 2.3 ==> Classify(score).labelText == "Moderate" && Classify(score).color == "blue"
    ensures 1.7 <= score < 2.0 ==> Classify(score).labelText == "Neutral" && Classify(score).color == "yellow"
    ensures 1.3 <= score < 1.7 ==> Classify(score).labelText == "Needs Attention" && Classify(score).color == "orange"
    ensures score < 1.3 ==> Classify(score).labelText == "Critical" && Classify(score).color == "red"
  {
    ClassifyPicksLargestThreshold(score);
    var i := BandIndex(score);
    if score < 0.0 {
      NegativeIsCritical(score);
    } else {
      // the first match is the entry whose band holds the score
      assert forall j :: 0 <= j < i ==> score < Config[j].threshold;
      assert Config[0].threshold == 2.7 && Config[1].threshold == 2.3 && Config[2].threshold == 2.0;
      assert Config[3].threshold == 1.7 && Config[4].threshold == 1.3 && Config[5].threshold == 0.0;
    }
  }

  /** Rank of a classification, from 0 (Critical) up to 5 (Excellent). */
  function Rank(score: real): (r: nat)
    ensures r < |Config|
    ensures Classify(score).labelText == Config[|Config| - 1 - r].labelText
  {
    |Config| - 1 - BandIndex(score)
  }

  /** Classification is monotone: a higher score never gets a lower label. */
  lemma ClassifyMonotone(s1: real, s2: real)
    requires s1 <= s2
    ensures Rank(s1) <= Rank(s2)
  {
    ConfigStrictlyDescending();
    if FirstReached(Config, s1).Some? {
      FirstReachedMonotone(Config, s1, s2);
    }
  }

  /** The class names `getSentimentStyles` hands out for one colour family. */
  datatype Styles = Styles(bgColor: string, textColor: string, borderColor: string,
                           gradientFrom: string, gradientTo: string)

  function StylesOf(c: string): Styles {
    Styles("bg-" + c + "-50", "text-" + c + "-700", "border-" + c + "-200",
           "from-" + c + "-500", "to-" + c + "-600")
  }

  /** The colour map of `getSentimentStyles`. */
  const StyleTable: map<string, Styles> :=
    map["emerald" := StylesOf("emerald"), "green" := StylesOf("green"), "blue" := StylesOf("blue"),
        "yellow" := StylesOf("yellow"), "orange" := StylesOf("orange"), "red" := StylesOf("red")]

  /** `getSentimentStyles`: the colour's styles, the red ones for a colour
      the table does not know. */
  function StylesFor(color: string): (st: Styles)
    ensures color in StyleTable ==> st == StylesOf(color)
    ensures color !in StyleTable ==> st == StylesOf("red")
  {
    if color in StyleTable then StyleTable[color] else StyleTable["red"]
  }

  /** Every classification's colour has its own entry in the style table, so
      the red fallback is only taken for colours from elsewhere. */
  lemma ClassifiedColorsStyled(score: real)
    ensures Classify(score).color in StyleTable
    ensures StylesFor(Classify(score).color) == StylesOf(Classify(score).color)
  {
  }
}
