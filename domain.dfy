/**
 * The entities the components share: a member's sentiment, members, teams,
 * the per-sentiment member counts every component derives, and JavaScript's
 * `Math.round`.
 */
module Domain {

  datatype Option<T> = None | Some(value: T)

  /** A member's sentiment. The store's enum has exactly HAPPY, NEUTRAL and SAD;
      `Unrecognised` stands for any other string a loosely typed caller may
      hand to a component, which some components count and others do not. */
  datatype Sentiment = Happy | Neutral | Sad | Unrecognised

  datatype Member = Member(id: string, name: string, email: string, sentiment: Sentiment)

  datatype Team = Team(id: string, name: string, isActive: bool, members: seq<Member>)

  /** Every member carries one of the three enum values. */
  predicate AllRecognised(members: seq<Member>) {
    forall k :: 0 <= k < |members| ==> !members[k].sentiment.Unrecognised?
  }

  /** `members.filter(m => m.sentiment === s).length` */
  function CountOf(members: seq<Member>, s: Sentiment): (n: nat)
    ensures n <= |members|
  {
    if members == [] then 0
    else (if members[0].sentiment == s then 1 else 0) + CountOf(members[1..], s)
  }

  /** The three counts never exceed the number of members, and add up to it
      exactly when every member has one of the three sentiments. */
  lemma {:induction false} CountsPartition(members: seq<Member>)
    ensures CountOf(members, Happy) + CountOf(members, Neutral) + CountOf(members, Sad) <= |members|
    ensures AllRecognised(members) <==>
            CountOf(members, Happy) + CountOf(members, Neutral) + CountOf(members, Sad) == |members|
  {
    if members != [] {
      CountsPartition(members[1..]);
      if AllRecognised(members[1..]) != AllRecognised(members) {
        assert !AllRecognised(members);
        forall k | 0 <= k < |members[1..]| ensures !members[1..][k].sentiment.Unrecognised? {
          assert members[1..][k] == members[k + 1];
        }
      }
    }
  }

  /** The counts of a concatenation add up. */
  lemma {:induction false} CountOfConcat(a: seq<Member>, b: seq<Member>, s: Sentiment)
    ensures CountOf(a + b, s) == CountOf(a, s) + CountOf(b, s)
  {
    if a != [] {
      assert (a + b)[1..] == a[1..] + b;
      CountOfConcat(a[1..], b, s);
    } else {
      assert a + b == b;
    }
  }

  /** JavaScript's `Math.round`: the nearest integer, halves rounded up. */
  function JsRound(x: real): (n: int)
    ensures x - 0.5 < n as real <= x + 0.5
  {
    (x + 0.5).Floor
  }

  /** Dividing out a positive factor keeps bounds: from q·r == w and lo·r <= w <= hi·r. */
  lemma CancelPositive(q: real, r: real, w: real, lo: real, hi: real)
    requires r > 0.0 && q * r == w && lo * r <= w <= hi * r
    ensures lo <= q <= hi
  {
    NonNegativeQuotient(w - lo * r, r);
    NonNegativeQuotient(hi * r - w, r);
    assert (w - lo * r) / r == q - lo;
    assert (hi * r - w) / r == hi - q;
  }

  lemma NonNegativeQuotient(x: real, r: real)
    requires x >= 0.0 && r > 0.0
    ensures x / r >= 0.0
  {
  }

  /** 3 per happy, 2 per neutral and 1 per sad member; other values add nothing. */
  function WeightedCount(members: seq<Member>): (w: nat)
    ensures w <= 3 * |members|
    ensures AllRecognised(members) ==> |members| <= w
  {
    CountsPartition(members);
    3 * CountOf(members, Happy) + 2 * CountOf(members, Neutral) + CountOf(members, Sad)
  }

  /** The weighted count divided by the number of members (all of them,
      recognised or not). */
  function MeanScore(members: seq<Member>): (avg: real)
    requires |members| > 0
    ensures avg * (|members| as real) == WeightedCount(members) as real
  {
    QuotientTimes(WeightedCount(members) as real, |members| as real);
    WeightedCount(members) as real / |members| as real
  }

  /** The mean stays within the weights, and within [1, 3] when every member
      has one of the three sentiments. */
  lemma MeanScoreRange(members: seq<Member>)
    requires |members| > 0
    ensures 0.0 <= MeanScore(members) <= 3.0
    ensures AllRecognised(members) ==> 1.0 <= MeanScore(members)
  {
    var t, w := |members| as real, WeightedCount(members) as real;
    assert MeanScore(members) == w / t;
    if AllRecognised(members) {
      QuotientBetween(w, t, 1.0, 3.0);
    } else {
      QuotientBetween(w, t, 0.0, 3.0);
    }
  }

  /** Dividing by a positive number keeps a value's bounds relative to it. */
  lemma QuotientBetween(w: real, t: real, lo: real, hi: real)
    requires t > 0.0 && lo * t <= w <= hi * t
    ensures (w / t) * t == w
    ensures lo <= w / t <= hi
  {
    var q := w / t;
    assert q * t == w;
    CancelPositive(q, t, w, lo, hi);
  }

  lemma QuotientTimes(w: real, t: real)
    requires t != 0.0
    ensures (w / t) * t == w
  {
  }
}
