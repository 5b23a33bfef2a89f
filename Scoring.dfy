/**
 * The bid scoring engine: three fixed competitors plus Korea at the learner's price are
 * ranked by bid (lowest first) to get a price score, their four score components are summed,
 * and they are ranked by total (highest first). Both sorts are stable, so ties keep input
 * order: competitors first, in their given order, then Korea.
 */
module Scoring {
  import opened Wrappers
  import opened StableOrder

  datatype Country = USA | Germany | China | Korea

  /** A participant's score sheet: fixed attributes and a bid price in millions. */
  datatype ScoreData = ScoreData(
    country: Country,
    creditRating: string,
    creditScore: int,
    performanceRank: int,
    performanceScore: int,
    technicalRank: int,
    technicalScore: int,
    costMillion: int,
    bidPriceMillion: int)

  /** Korea's fixed attributes; its bid is the learner's price. */
  datatype FixedData = FixedData(
    country: Country,
    creditRating: string,
    creditScore: int,
    performanceRank: int,
    performanceScore: int,
    technicalRank: int,
    technicalScore: int,
    costMillion: int)

  /** One row of the result table. */
  datatype BidResult = BidResult(
    country: Country,
    priceScore: int,
    technicalScore: int,
    performanceScore: int,
    creditScore: int,
    totalScore: int,
    rank: int,
    bidPriceMillion: int)

  /** `{ ...KOREA_FIXED_DATA, bidPriceMillion: price }` */
  function WithBid(f: FixedData, price: int): ScoreData
  {
    ScoreData(f.country, f.creditRating, f.creditScore, f.performanceRank, f.performanceScore,
              f.technicalRank, f.technicalScore, f.costMillion, price)
  }

  /** The competitors in their given order, then Korea at `price`. */
  function Participants(competitors: seq<ScoreData>, korea: FixedData, price: int): seq<ScoreData>
  {
    competitors + [WithBid(korea, price)]
  }

  /** The reference data the engine relies on: one record per country, a score for every price rank. */
  predicate WellFormed(competitors: seq<ScoreData>, korea: FixedData, mapping: map<int, int>)
  {
    && (forall i, j :: 0 <= i < j < |competitors| ==> competitors[i].country != competitors[j].country)
    && (forall i :: 0 <= i < |competitors| ==> competitors[i].country != korea.country)
    && (forall k :: 1 <= k <= |competitors| + 1 ==> k in mapping)
  }

  predicate DistinctCountries(ps: seq<ScoreData>)
  {
    forall i, j :: 0 <= i < j < |ps| ==> ps[i].country != ps[j].country
  }

  lemma ParticipantsDistinct(competitors: seq<ScoreData>, korea: FixedData, mapping: map<int, int>, price: int)
    requires WellFormed(competitors, korea, mapping)
    ensures DistinctCountries(Participants(competitors, korea, price))
  {
  }

  /** The sort key of the price sort. */
  function Bids(ps: seq<ScoreData>): (keys: seq<int>)
    ensures |keys| == |ps|
  {
    seq(|ps|, i requires 0 <= i < |ps| => ps[i].bidPriceMillion)
  }

  /** A participant's row before final ranking (`rank: 0`). */
  function Score(p: ScoreData, priceScore: int): BidResult
  {
    BidResult(p.country, priceScore, p.technicalScore, p.performanceScore, p.creditScore,
              priceScore + p.technicalScore + p.performanceScore + p.creditScore, 0, p.bidPriceMillion)
  }

  /** Every participant scored with the price score of its stable ascending price position. */
  function Unranked(ps: seq<ScoreData>, mapping: map<int, int>): (rs: seq<BidResult>)
    requires forall k :: 1 <= k <= |ps| ==> k in mapping
    ensures |rs| == |ps|
  {
    seq(|ps|, i requires 0 <= i < |ps| => Score(ps[i], mapping[StableRank(Bids(ps), i)]))
  }

  /** The sort key of the total sort: descending totals are ascending negated totals. */
  function NegTotals(rs: seq<BidResult>): (keys: seq<int>)
    ensures |keys| == |rs|
  {
    seq(|rs|, i requires 0 <= i < |rs| => -rs[i].totalScore)
  }

  /** Each row given its stable descending position by total. */
  function Ranked(rs: seq<BidResult>): (out: seq<BidResult>)
    ensures |out| == |rs|
  {
    seq(|rs|, i requires 0 <= i < |rs| => rs[i].(rank := StableRank(NegTotals(rs), i)))
  }

  /** The result set `calculateRanks` computes for a valid price. */
  function Ranking(competitors: seq<ScoreData>, korea: FixedData, mapping: map<int, int>, price: int): (rs: seq<BidResult>)
    requires WellFormed(competitors, korea, mapping)
    ensures |rs| == |competitors| + 1
  {
    Ranked(Unranked(Participants(competitors, korea, price), mapping))
  }

  /**
   * `calculateRanks`: a NaN price (`None`) leaves the previous results as they are; any
   * other price recomputes the whole result set. The price sort fills a country-to-rank
   * dictionary, the rows are built in participant order, and the total sort writes each
   * row's rank back into the row of the same country.
   */
  method CalculateRanks(competitors: seq<ScoreData>, korea: FixedData, mapping: map<int, int>,
                        price: Option<int>, previous: seq<BidResult>) returns (results: seq<BidResult>)
    requires WellFormed(competitors, korea, mapping)
    ensures price.None? ==> results == previous
    ensures price.Some? ==> results == Ranking(competitors, korea, mapping, price.value)
    ensures price.Some? ==> |results| == |competitors| + 1 && results[|competitors|].country == korea.country
                            && results[|competitors|].bidPriceMillion == price.value
    ensures price.Some? ==> forall i :: 0 <= i < |competitors| ==>
              results[i].country == competitors[i].country && results[i].bidPriceMillion == competitors[i].bidPriceMillion
    ensures price.Some? ==> forall i :: 0 <= i < |results| ==>
              results[i].totalScore == results[i].priceScore + results[i].technicalScore
                                       + results[i].performanceScore + results[i].creditScore
  {
    if price.None? {
      return previous;
    }
    var all := Participants(competitors, korea, price.value);
    ParticipantsDistinct(competitors, korea, mapping, price.value);
    var n := |all|;

    var priceRanks := PriceRanks(all);
    ghost var base := Unranked(all, mapping);
    var finalScores := new BidResult[n];
    for i := 0 to n
      invariant forall k :: 0 <= k < i ==> finalScores[k] == base[k]
    {
      finalScores[i] := Score(all[i], mapping[priceRanks[all[i].country]]);
    }
    assert finalScores[..] == base;
    AssignRanks(finalScores);
    results := finalScores[..];
  }

  /**
   * The price sort and the `forEach` that records each country's 1-based position in it.
   */
  method PriceRanks(ps: seq<ScoreData>) returns (priceRanks: map<Country, int>)
    requires DistinctCountries(ps)
    ensures forall i :: 0 <= i < |ps| ==> ps[i].country in priceRanks
                                          && priceRanks[ps[i].country] == StableRank(Bids(ps), i)
  {
    var byPrice := StableSortByKey(Bids(ps));
    priceRanks := map[];
    for idx := 0 to |ps|
      invariant forall q :: 0 <= q < idx ==> ps[byPrice[q]].country in priceRanks
                                             && priceRanks[ps[byPrice[q]].country] == q + 1
    {
      priceRanks := priceRanks[ps[byPrice[idx]].country := idx + 1];
    }
    forall i | 0 <= i < |ps|
      ensures ps[i].country in priceRanks && priceRanks[ps[i].country] == StableRank(Bids(ps), i)
    {
      assert i in byPrice;
      var q :| 0 <= q < |ps| && byPrice[q] == i;
      PositionIsStableRank(Bids(ps), byPrice, q);
    }
  }

  /**
   * The total sort and the `forEach` that finds each sorted row's country among the rows and
   * sets that row's rank to its 1-based position.
   */
  method AssignRanks(rows: array<BidResult>)
    requires forall i, j :: 0 <= i < j < rows.Length ==> rows[i].country != rows[j].country
    modifies rows
    ensures rows[..] == Ranked(old(rows[..]))
  {
    ghost var base := rows[..];
    var n := rows.Length;
    var byTotal := StableSortByKey(NegTotals(rows[..]));
    for idx := 0 to n
      invariant forall q :: 0 <= q < idx ==> rows[byTotal[q]] == base[byTotal[q]].(rank := q + 1)
      invariant forall q :: idx <= q < n ==> rows[byTotal[q]] == base[byTotal[q]]
      invariant forall q :: 0 <= q < n ==> rows[q].country == base[q].country
    {
      var k := FindByCountry(rows, rows[byTotal[idx]].country);
      rows[k] := rows[k].(rank := idx + 1);
    }
    forall i | 0 <= i < n
      ensures rows[i] == Ranked(base)[i]
    {
      assert i in byTotal;
      var q :| 0 <= q < n && byTotal[q] == i;
      PositionIsStableRank(NegTotals(base), byTotal, q);
    }
  }

  /** `finalScores.find(f => f.country === country)`, for a country that is present. */
  method FindByCountry(rows: array<BidResult>, country: Country) returns (k: nat)
    requires exists j :: 0 <= j < rows.Length && rows[j].country == country
    ensures k < rows.Length && rows[k].country == country
    ensures forall j :: 0 <= j < k ==> rows[j].country != country
  {
    k := 0;
    while rows[k].country != country
      invariant k < rows.Length
      invariant forall j :: 0 <= j < k ==> rows[j].country != country
      invariant exists j :: k <= j < rows.Length && rows[j].country == country
      decreases rows.Length - k
    {
      k := k + 1;
    }
  }

  /** The rank column of a result set. */
  function RanksOf(rs: seq<BidResult>): (ranks: seq<int>)
    ensures |ranks| == |rs|
  {
    seq(|rs|, i requires 0 <= i < |rs| => rs[i].rank)
  }

  /**
   * Each entry's price score is the score the table gives to its 1-based position in the
   * stable ascending sort by bid (equal bids in participant order).
   */
  lemma PriceScoreIsSortPosition(competitors: seq<ScoreData>, korea: FixedData, mapping: map<int, int>,
                                 price: int, byPrice: seq<nat>, q: nat)
    requires WellFormed(competitors, korea, mapping)
    requires IsStableOrder(Bids(Participants(competitors, korea, price)), byPrice)
    requires q < |byPrice|
    ensures byPrice[q] < |Ranking(competitors, korea, mapping, price)|
    ensures Ranking(competitors, korea, mapping, price)[byPrice[q]].priceScore == mapping[q + 1]
  {
    PositionIsStableRank(Bids(Participants(competitors, korea, price)), byPrice, q);
  }

  /** The final ranks are a permutation of 1..N. */
  lemma FinalRanksArePermutation(competitors: seq<ScoreData>, korea: FixedData, mapping: map<int, int>, price: int)
    requires WellFormed(competitors, korea, mapping)
    ensures var ranks := RanksOf(Ranking(competitors, korea, mapping, price));
            && (forall i :: 0 <= i < |ranks| ==> 1 <= ranks[i] <= |ranks|)
            && (forall i, j :: 0 <= i < j < |ranks| ==> ranks[i] != ranks[j])
            && (forall k :: 1 <= k <= |ranks| ==> k in ranks)
  {
    var rs := Unranked(Participants(competitors, korea, price), mapping);
    var keys := NegTotals(rs);
    StableRanksArePermutation(keys);
    assert RanksOf(Ranking(competitors, korea, mapping, price)) == Ranks(keys);
  }

  /**
   * The final ranking is the stable descending sort by total: a strictly higher total gets a
   * strictly smaller rank, equal totals are ranked in participant order, and a smaller rank
   * never goes with a lower total.
   */
  lemma RankFollowsTotal(competitors: seq<ScoreData>, korea: FixedData, mapping: map<int, int>, price: int, i: nat, j: nat)
    requires WellFormed(competitors, korea, mapping)
    requires i < |competitors| + 1 && j < |competitors| + 1
    ensures var rs := Ranking(competitors, korea, mapping, price);
            && (rs[i].totalScore > rs[j].totalScore ==> rs[i].rank < rs[j].rank)
            && (rs[i].totalScore == rs[j].totalScore && i < j ==> rs[i].rank < rs[j].rank)
            && (rs[i].rank < rs[j].rank ==> rs[i].totalScore >= rs[j].totalScore)
  {
    var base := Unranked(Participants(competitors, korea, price), mapping);
    StableRankOrder(NegTotals(base), i, j);
  }

  /**
   * With a price-score table that does not increase with the rank, a strictly lower bid never
   * earns a lower price score; with a strictly decreasing table it earns a strictly higher one.
   */
  lemma LowerBidScoresAtLeastAsHigh(competitors: seq<ScoreData>, korea: FixedData, mapping: map<int, int>,
                                    price: int, i: nat, j: nat)
    requires WellFormed(competitors, korea, mapping)
    requires i < |competitors| + 1 && j < |competitors| + 1
    requires forall a, b :: 1 <= a < b <= |competitors| + 1 ==> mapping[a] >= mapping[b]
    ensures var ps := Participants(competitors, korea, price);
            var rs := Ranking(competitors, korea, mapping, price);
            ps[i].bidPriceMillion < ps[j].bidPriceMillion ==> rs[i].priceScore >= rs[j].priceScore
    ensures var ps := Participants(competitors, korea, price);
            var rs := Ranking(competitors, korea, mapping, price);
            ((forall a, b :: 1 <= a < b <= |competitors| + 1 ==> mapping[a] > mapping[b])
             && ps[i].bidPriceMillion < ps[j].bidPriceMillion) ==> rs[i].priceScore > rs[j].priceScore
  {
    StableRankOrder(Bids(Participants(competitors, korea, price)), i, j);
  }

  /** `COMPETITOR_DATA`: the United States, Germany and China, in that order. */
  const CompetitorData: seq<ScoreData> := [
    ScoreData(USA, "AAA", 10, 4, 14, 3, 24, 620, 664),
    ScoreData(Germany, "AAA", 10, 2, 18, 1, 30, 640, 698),
    ScoreData(China, "B", 7, 1, 20, 4, 21, 590, 617)
  ]

  /** `KOREA_FIXED_DATA` */
  const KoreaFixedData: FixedData := FixedData(Korea, "AAA", 10, 3, 16, 2, 27, 600)

  /** `PRICE_SCORE_MAPPING`: price rank 1 to 4 earn 40, 37, 34, 31 points. */
  const PriceScoreMapping: map<int, int> := map[1 := 40, 2 := 37, 3 := 34, 4 := 31]

  /**
   * The shipped data with a bid of 663: price order China, Korea, USA, Germany; totals
   * USA 82, Germany 89, China 88, Korea 90; Korea ranks first.
   */
  lemma BaselineScenario()
    ensures WellFormed(CompetitorData, KoreaFixedData, PriceScoreMapping)
    ensures Ranking(CompetitorData, KoreaFixedData, PriceScoreMapping, 663) == [
              BidResult(USA, 34, 24, 14, 10, 82, 4, 664),
              BidResult(Germany, 31, 30, 18, 10, 89, 2, 698),
              BidResult(China, 40, 21, 20, 7, 88, 3, 617),
              BidResult(Korea, 37, 27, 16, 10, 90, 1, 663)]
  {
    var ps := Participants(CompetitorData, KoreaFixedData, 663);
    var base := Unranked(ps, PriceScoreMapping);
    ScoredAt663();
    assert NegTotals(base) == [-82, -89, -88, -90];
    TotalOrderAt663();
    var rs := Ranked(base);
    assert rs[0] == base[0].(rank := 4) && rs[1] == base[1].(rank := 2);
    assert rs[2] == base[2].(rank := 3) && rs[3] == base[3].(rank := 1);
  }

  /** The price order at a bid of 663: China, Korea, the United States, Germany. */
  lemma PriceOrderAt663()
    ensures StableRank([664, 698, 617, 663], 0) == 3
    ensures StableRank([664, 698, 617, 663], 1) == 4
    ensures StableRank([664, 698, 617, 663], 2) == 1
    ensures StableRank([664, 698, 617, 663], 3) == 2
  {
  }

  /** The rows before ranking at a bid of 663. */
  lemma ScoredAt663()
    ensures Unranked(Participants(CompetitorData, KoreaFixedData, 663), PriceScoreMapping) == [
              BidResult(USA, 34, 24, 14, 10, 82, 0, 664),
              BidResult(Germany, 31, 30, 18, 10, 89, 0, 698),
              BidResult(China, 40, 21, 20, 7, 88, 0, 617),
              BidResult(Korea, 37, 27, 16, 10, 90, 0, 663)]
  {
    assert Bids(Participants(CompetitorData, KoreaFixedData, 663)) == [664, 698, 617, 663];
    PriceOrderAt663();
  }

  /** The total order at a bid of 663: Korea, Germany, China, the United States. */
  lemma TotalOrderAt663()
    ensures StableRank([-82, -89, -88, -90], 0) == 4
    ensures StableRank([-82, -89, -88, -90], 1) == 2
    ensures StableRank([-82, -89, -88, -90], 2) == 3
    ensures StableRank([-82, -89, -88, -90], 3) == 1
  {
  }
}
