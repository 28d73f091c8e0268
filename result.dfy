/**
 * The result screen of components/Result.tsx:12-30: the score as a rounded
 * percentage, and the title and message chosen from it.
 */
module ResultScreen {

  /** `Math.round((score / total) * 100)`; with no questions the division
      gives NaN. */
  datatype Percentage = Percent(value: int) | NaN

  /** The percentage rounded to the nearest integer, halves upwards. */
  function PercentageOf(score: nat, total: nat): (r: Percentage)
    ensures r.NaN? <==> total == 0
    ensures r.Percent? ==> 200 * score - total < 2 * total * r.value <= 200 * score + total
  {
    if total == 0 then NaN
    else
      DivFloor(200 * score + total, 2 * total);
      Percent((200 * score + total) / (2 * total))
  }

  lemma DivFloor(n: nat, d: nat)
    requires d > 0
    ensures d * (n / d) <= n < d * (n / d) + d
  {
  }

  /** A positive factor can be cancelled from both sides of `<`. */
  lemma CancelLess(a: int, x: int, y: int)
    requires a > 0 && a * x < a * y
    ensures x < y
  {
  }

  /** A score within the total gives a percentage from 0 to 100. */
  lemma PercentageRange(score: nat, total: nat)
    requires 0 < total && score <= total
    ensures 0 <= PercentageOf(score, total).value <= 100
  {
    var v := PercentageOf(score, total).value;
    CancelLess(2 * total, -1, v);
    CancelLess(2 * total, v, 101);
  }

  /** The three outcomes, from best to worst. */
  datatype Band = Excellent | Good | Completed

  /** The band of a percentage; NaN fails both comparisons. */
  function BandOf(p: Percentage): (b: Band)
    ensures b == Excellent <==> p.Percent? && p.value >= 90
    ensures b == Good <==> p.Percent? && 60 <= p.value < 90
  {
    if p.Percent? && p.value >= 90 then Excellent
    else if p.Percent? && p.value >= 60 then Good
    else Completed
  }

  function Rank(b: Band): nat {
    match b
    case Completed => 0
    case Good => 1
    case Excellent => 2
  }

  function Title(b: Band): string {
    match b
    case Excellent => "Tuyệt vời!"
    case Good => "Khá lắm!"
    case Completed => "Luyện tập hoàn tất!"
  }

  function Message(b: Band): string {
    match b
    case Excellent => "Phản xạ của bạn thực sự ấn tượng."
    case Good => "Bạn đang tiến bộ rất nhanh đấy."
    case Completed => "Hãy cố gắng hơn trong lần tới nhé!"
  }

  /** Each band has its own title. */
  lemma TitlesDistinct(b: Band, c: Band)
    ensures Title(b) == Title(c) <==> b == c
  {
    if b != c {
      assert Title(b)[0] != Title(c)[0] || |Title(b)| != |Title(c)|;
    }
  }

  /** A higher percentage never gives a lower band. */
  lemma BandMonotone(p: int, q: int)
    requires p <= q
    ensures Rank(BandOf(Percent(p))) <= Rank(BandOf(Percent(q)))
  {
  }

  /** The bands in terms of the score alone: at least 179/200 of the
      questions for the best band, at least 119/200 for the middle one. */
  lemma {:induction false} BandThresholds(score: nat, total: nat)
    requires total > 0
    ensures BandOf(PercentageOf(score, total)) == Excellent <==> 200 * score >= 179 * total
    ensures BandOf(PercentageOf(score, total)) == Good <==> 119 * total <= 200 * score < 179 * total
  {
    var v := PercentageOf(score, total).value;
    if 200 * score >= 179 * total {
      CancelLess(2 * total, 89, v);
    } else {
      CancelLess(2 * total, v, 90);
    }
    if 200 * score >= 119 * total {
      CancelLess(2 * total, 59, v);
    } else {
      CancelLess(2 * total, v, 60);
    }
  }

  /** One more correct answer never gives a lower band. */
  lemma BandMonotoneInScore(score: nat, total: nat)
    requires total > 0
    ensures Rank(BandOf(PercentageOf(score, total))) <= Rank(BandOf(PercentageOf(score + 1, total)))
  {
    BandThresholds(score, total);
    BandThresholds(score + 1, total);
  }

  /** With no questions the default title and message are shown. */
  lemma EmptySessionCompleted(score: nat)
    ensures BandOf(PercentageOf(score, 0)) == Completed
  {
  }
}
