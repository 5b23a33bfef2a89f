/**
 * The result screen's grading: the learner's price, expected profit and four recorded total
 * scores are read with `Number(...)` and compared with the answer key; the mission is won when
 * the price and the profit are both right.
 */
module Grading {
  import opened Wrappers
  import opened Scoring
  import opened StableOrder

  /**
   * The text of a numeric input field, as far as `Number(...)` can tell it apart: empty, an
   * integer, a number with a fractional part, or text that is not a number at all.
   */
  datatype Field = Empty | Integer(value: int) | NonInteger | NotANumber

  /** What `Number(text)` gives, as far as grading can tell it apart. */
  datatype NumberValue = Int(value: int) | Fraction | NaN

  /** `Number(text)`: the empty text is 0. */
  function NumberOf(f: Field): (n: NumberValue)
    ensures f.Empty? ==> n == Int(0)
    ensures f.Integer? ==> n == Int(f.value)
    ensures n.Int? <==> f.Empty? || f.Integer?
  {
    match f
    case Empty => Int(0)
    case Integer(v) => Int(v)
    case NonInteger => Fraction
    case NotANumber => NaN
  }

  /** `text || '0'`: the empty text is replaced by `'0'`. */
  function OrZero(f: Field): (r: Field)
    ensures f.Empty? ==> r == Integer(0)
    ensures !f.Empty? ==> r == f
  {
    if f.Empty? then Integer(0) else f
  }

  /**
   * The price field's effect: `calculateRanks(Number(userPrice))` on the shipped data. Text
   * that is not a number leaves the results as they were; a blank field is scored as a bid
   * of 0.
   */
  method OnUserPriceChange(price: Field, previous: seq<BidResult>) returns (results: seq<BidResult>)
    requires !price.NonInteger?
    ensures price.NotANumber? ==> results == previous
    ensures price.Empty? ==> results == Ranking(CompetitorData, KoreaFixedData, PriceScoreMapping, 0)
    ensures price.Integer? ==> results == Ranking(CompetitorData, KoreaFixedData, PriceScoreMapping, price.value)
  {
    BaselineScenario();
    var n := NumberOf(price);
    var arg := if n.Int? then Some(n.value) else None;
    results := CalculateRanks(CompetitorData, KoreaFixedData, PriceScoreMapping, arg, previous);
  }

  /** The answer key's price, in millions of dollars. */
  const AnswerPrice: int := 663

  /** The answer key's expected profit, in millions of dollars. */
  const AnswerProfit: int := 63

  /** The answer key's total score of each country. */
  function AnswerScore(c: Country): int
  {
    match c
    case USA => 82
    case Germany => 89
    case China => 88
    case Korea => 90
  }

  /** The four recorded scores; a country without an entry reads as empty. */
  function ScoreField(manual: map<Country, Field>, c: Country): Field
  {
    if c in manual then manual[c] else Empty
  }

  /** The grade of one submission. */
  datatype Grade = Grade(priceCorrect: bool, profitCorrect: bool, won: bool, scoreCorrect: map<Country, bool>)

  /**
   * `renderResult`'s grading: the price and the profit are right when their number is the
   * answer, the mission is won when both are, and each country's score is right when the
   * number of its field, with an empty field read as `'0'`, is the answer. No answer is 0, so
   * a field is right exactly when it holds the answer as an integer; an empty one never is.
   */
  function GradeSubmission(price: Field, profit: Field, manual: map<Country, Field>): (g: Grade)
    ensures g.priceCorrect <==> price == Integer(AnswerPrice)
    ensures g.profitCorrect <==> profit == Integer(AnswerProfit)
    ensures g.won <==> price == Integer(AnswerPrice) && profit == Integer(AnswerProfit)
    ensures forall c: Country :: c in g.scoreCorrect
    ensures forall c: Country :: g.scoreCorrect[c] <==> ScoreField(manual, c) == Integer(AnswerScore(c))
  {
    var priceCorrect := NumberOf(price) == Int(AnswerPrice);
    var profitCorrect := NumberOf(profit) == Int(AnswerProfit);
    Grade(priceCorrect, profitCorrect, priceCorrect && profitCorrect,
          map c: Country | true :: NumberOf(OrZero(ScoreField(manual, c))) == Int(AnswerScore(c)))
  }

  /**
   * Reading an empty score field as `'0'` changes no verdict: `Number('')` is already 0. It
   * only changes what the result screen displays.
   */
  lemma ScoreFallbackChangesNothing(f: Field)
    ensures NumberOf(OrZero(f)) == NumberOf(f)
  {
  }

  /**
   * Exactly one price text wins the price: an integer field holding 663. A blank field reads
   * as 0 and a fractional or non-numeric one never matches.
   */
  lemma PriceCorrectOnlyFor663(price: Field, profit: Field, manual: map<Country, Field>)
    ensures GradeSubmission(price, profit, manual).priceCorrect <==> price == Integer(663)
    ensures GradeSubmission(price, profit, manual).won <==> price == Integer(663) && profit == Integer(63)
  {
  }

  /** The answer key's scores are the totals the scoring engine gives for a bid of 663. */
  lemma AnswerKeyMatchesEngine()
    ensures var rs := Ranking(CompetitorData, KoreaFixedData, PriceScoreMapping, AnswerPrice);
            && |rs| == 4
            && (forall i :: 0 <= i < 4 ==> rs[i].totalScore == AnswerScore(rs[i].country))
            && rs[3].country == Korea && rs[3].rank == 1
  {
    BaselineScenario();
  }

  /**
   * With the shipped competitors, Korea ranks first exactly when it bids at most 663: 663 is
   * the highest winning bid, which is why it is the answer. At 664 Korea ties the United
   * States on price and, coming after it in the list, takes the worse price rank.
   */
  lemma KoreaWinsIffBidAtMost663(p: int)
    ensures WellFormed(CompetitorData, KoreaFixedData, PriceScoreMapping)
    ensures Ranking(CompetitorData, KoreaFixedData, PriceScoreMapping, p)[3].rank == 1 <==> p <= 663
  {
    BaselineScenario();
    var ps := Participants(CompetitorData, KoreaFixedData, p);
    var bids := Bids(ps);
    assert bids == [664, 698, 617, p];
    var k := StableRank(bids, 3);
    KoreaPriceRank(p);
    var base := Unranked(ps, PriceScoreMapping);
    assert base[3].totalScore == PriceScoreMapping[k] + 53;
    var tot := NegTotals(base);
    assert tot == [-(PriceScoreMapping[StableRank(bids, 0)] + 48), -(PriceScoreMapping[StableRank(bids, 1)] + 58),
                   -(PriceScoreMapping[StableRank(bids, 2)] + 48), -(PriceScoreMapping[k] + 53)];
    FirstIffAheadOfAll(tot, 3);
    if p <= 663 {
      CompetitorsBehindKorea(p);
    } else {
      GermanyAheadOfKorea(p);
      assert !(tot[3] < tot[1]);
    }
  }

  /**
   * A blank price field is not skipped: it is scored as a bid of 0, the lowest bid, which
   * earns Korea the top price score and first place.
   */
  lemma BlankPriceScoredAsZero()
    ensures var rs := Ranking(CompetitorData, KoreaFixedData, PriceScoreMapping, 0);
            |rs| == 4 && rs[3].bidPriceMillion == 0 && rs[3].priceScore == 40 && rs[3].rank == 1
  {
    KoreaWinsIffBidAtMost663(0);
    KoreaPriceRank(0);
    assert Bids(Participants(CompetitorData, KoreaFixedData, 0)) == [664, 698, 617, 0];
  }

  /** 1 if index j comes before index i, else 0. */
  function Ahead(keys: seq<int>, j: nat, i: nat): nat
    requires j < |keys| && i < |keys|
  {
    if Before(keys, j, i) then 1 else 0
  }

  /** The rank among four keys, written out. */
  lemma RankOfFour(keys: seq<int>, i: nat)
    requires |keys| == 4 && i < 4
    ensures StableRank(keys, i) == 1 + Ahead(keys, 0, i) + Ahead(keys, 1, i) + Ahead(keys, 2, i) + Ahead(keys, 3, i)
  {
    assert CountBefore(keys, i, 1) == Ahead(keys, 0, i);
    assert CountBefore(keys, i, 2) == CountBefore(keys, i, 1) + Ahead(keys, 1, i);
    assert CountBefore(keys, i, 3) == CountBefore(keys, i, 2) + Ahead(keys, 2, i);
    assert CountBefore(keys, i, 4) == CountBefore(keys, i, 3) + Ahead(keys, 3, i);
  }

  /** Korea's price rank: first below 617, second up to 663, third up to 697, last from 698. */
  lemma KoreaPriceRank(p: int)
    ensures StableRank([664, 698, 617, p], 3) == if p < 617 then 1 else if p < 664 then 2 else if p < 698 then 3 else 4
  {
    RankOfFour([664, 698, 617, p], 3);
  }

  /** The last key ranks first exactly when every other key is larger. */
  lemma FirstIffAheadOfAll(keys: seq<int>, i: nat)
    requires i == |keys| - 1
    ensures StableRank(keys, i) == 1 <==> forall j :: 0 <= j < i ==> keys[i] < keys[j]
  {
    forall j | 0 <= j < i
      ensures StableRank(keys, j) < StableRank(keys, i) <==> Before(keys, j, i)
    {
      StableRankOrder(keys, j, i);
    }
    if StableRank(keys, i) == 1 {
      forall j | 0 <= j < i
        ensures keys[i] < keys[j]
      {
        assert !Before(keys, j, i);
      }
    } else {
      StableRanksArePermutation(keys);
      assert 1 in Ranks(keys);
      var j :| 0 <= j < |keys| && Ranks(keys)[j] == 1;
      assert j != i && !(keys[i] < keys[j]) by {
        StableRankOrder(keys, j, i);
      }
    }
  }

  /** At a bid of at most 663 every competitor's total is below Korea's. */
  lemma CompetitorsBehindKorea(p: int)
    requires p <= 663
    ensures var bids := [664, 698, 617, p];
            var korea := PriceScoreMapping[StableRank(bids, 3)] + 53;
            && PriceScoreMapping[StableRank(bids, 0)] + 48 < korea
            && PriceScoreMapping[StableRank(bids, 1)] + 58 < korea
            && PriceScoreMapping[StableRank(bids, 2)] + 48 < korea
  {
    var bids := [664, 698, 617, p];
    RankOfFour(bids, 0);
    RankOfFour(bids, 1);
    RankOfFour(bids, 2);
    RankOfFour(bids, 3);
    if p < 617 {
      assert StableRank(bids, 3) == 1;
    } else {
      assert StableRank(bids, 3) == 2;
    }
  }

  /** Above 663 Germany's total is at least Korea's. */
  lemma GermanyAheadOfKorea(p: int)
    requires p > 663
    ensures var bids := [664, 698, 617, p];
            PriceScoreMapping[StableRank(bids, 1)] + 58 >= PriceScoreMapping[StableRank(bids, 3)] + 53
  {
    var bids := [664, 698, 617, p];
    RankOfFour(bids, 1);
    RankOfFour(bids, 3);
    if p < 698 {
      assert StableRank(bids, 3) == 3;
      assert StableRank(bids, 1) == 4;
    } else {
      assert StableRank(bids, 3) == 4;
      assert StableRank(bids, 1) == 3;
    }
  }
}
