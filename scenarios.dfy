/** Worked cases on small series and on the dashboard's sample data. */
module Scenarios {
  import opened Types
  import opened Rounding
  import opened Sums
  import opened StableSort
  import Geography
  import Marketing
  import Revenue
  import Heatmap

  function Geo(city: string, revenue: int): GeoRecord
  {
    GeoRecord(city, "", revenue, 1, 0.0, 0.0)
  }

  /** Equal revenues keep their input order in the ranking. */
  lemma RankingTieKeepsInputOrder()
    ensures Geography.Ranking([Geo("A", 100), Geo("B", 100), Geo("C", 200)])
      == [Geo("C", 200), Geo("A", 100), Geo("B", 100)]
  {
    var a, b, c := Geo("A", 100), Geo("B", 100), Geo("C", 200);
    var key := Geography.RevenueKey;
    assert [a, b, c][1..] == [b, c] && [b, c][1..] == [c] && [c][1..] == [];
    assert Sort([c], key) == [c];
    assert Insert(b, [c], key) == [c, b] by { assert [c][1..] == []; }
    assert Sort([b, c], key) == [c, b];
    assert Insert(a, [b], key) == [a, b];
    assert Insert(a, [c, b], key) == [c, a, b] by { assert [c, b][1..] == [b]; }
  }

  /** On a revenue tie the top city is the later record. */
  lemma TopCityTieTakesLater()
    ensures Geography.TopCity([Geo("A", 100), Geo("B", 100)]) == Geo("B", 100)
  {
  }

  /** On a revenue tie the ranking leads with the earlier record while the
      top city is the later one: both have the top revenue. */
  lemma TieLeaderIsNotTopCity()
    ensures var data := [Geo("A", 100), Geo("B", 100)];
      Geography.Ranking(data)[0] == Geo("A", 100) && Geography.TopCity(data) == Geo("B", 100)
  {
    var a, b := Geo("A", 100), Geo("B", 100);
    assert [a, b][1..] == [b] && [b][1..] == [];
    assert Sort([b], Geography.RevenueKey) == [b];
    assert Insert(a, [b], Geography.RevenueKey) == [a, b];
  }

  /** The sample channels average 15.925 %, shown as 15.9. */
  lemma SampleMarketingAverage()
    ensures var data := [
        MarketingRecord("SEO", 15000, 750, 112, 14.9),
        MarketingRecord("Paid", 8500, 510, 89, 17.5),
        MarketingRecord("Referral", 5200, 260, 45, 17.3),
        MarketingRecord("Direct", 12000, 480, 67, 14.0)];
      Marketing.AvgConversionRate(data) == 15.925 && Marketing.Summarize(data).avgConversionRateTenths == 159
  {
    var data := [
        MarketingRecord("SEO", 15000, 750, 112, 14.9),
        MarketingRecord("Paid", 8500, 510, 89, 17.5),
        MarketingRecord("Referral", 5200, 260, 45, 17.3),
        MarketingRecord("Direct", 12000, 480, 67, 14.0)];
    assert data[..1][..0] == [];
    assert data[..2][..1] == data[..1] && data[..3][..2] == data[..2] && data[..4][..3] == data[..3];
    assert data[..4] == data;
    assert RealSum(data[..1], Marketing.RateOf) == 14.9;
    assert RealSum(data[..2], Marketing.RateOf) == 32.4;
    assert RealSum(data[..3], Marketing.RateOf) == 49.7;
    assert RealSum(data, Marketing.RateOf) == 63.7;
  }

  /** Two months, 150000 then 205000 net with 5200 refunds: a refund rate
      shown as 2.5 and a growth shown as 36.7. */
  lemma TwoMonthRevenue()
    ensures var data := [
        RevenueRecord("Jan", 25000, 45000, 80000, 150000, 5000),
        RevenueRecord("Jun", 38000, 62000, 105000, 205000, 5200)];
      Revenue.Summarize(data) == Revenue.Metrics(205000, 25, 367)
  {
  }

  /** Two items in the same bucket: in fetched order the later one, 2.0,
      shows; after the mobile summary's descending sort the lower one, 1.0,
      comes last and shows instead. */
  lemma DuplicateBucketAfterSort()
    ensures var c1, c2 := HeatmapCell(0, 0, 1.0), HeatmapCell(0, 0, 2.0);
      Heatmap.CellRate([c1, c2], 0, 0) == 2.0 &&
      Heatmap.CellRate(Sort([c1, c2], Heatmap.RateOf), 0, 0) == 1.0
  {
    var c1, c2 := HeatmapCell(0, 0, 1.0), HeatmapCell(0, 0, 2.0);
    var key := Heatmap.RateOf;
    assert [c1, c2][1..] == [c2] && [c2][1..] == [];
    assert Sort([c2], key) == [c2];
    assert Insert(c1, [c2], key) == [c2, c1] by { assert [c2][1..] == []; }
    assert [c2, c1][..1] == [c2];
    assert [c1, c2][..1] == [c1];
  }
}
