/** The channel metrics panel of the marketing page. */
module Marketing {
  import opened Types
  import opened Sums
  import opened Rounding

  /** What the metrics panel shows; the average conversion rate is the
      `toFixed(1)` figure, held as a whole number of tenths of a percent. */
  datatype Summary = Summary(
    totalVisitors: int,
    totalTrials: int,
    totalPaid: int,
    avgConversionRateTenths: int)

  function VisitorsOf(m: MarketingRecord): int { m.visitors }

  function TrialsOf(m: MarketingRecord): int { m.trials }

  function PaidOf(m: MarketingRecord): int { m.paid }

  function RateOf(m: MarketingRecord): real { m.conversionRate }

  /** The mean of the channels' own conversion rates (not total paid over
      total visitors). The code divides by the number of channels without a
      guard, so there must be at least one. */
  function AvgConversionRate(data: seq<MarketingRecord>): (r: real)
    requires |data| > 0
    ensures r * |data| as real == RealSum(data, RateOf)
  {
    Mean(data, RateOf)
  }

  /** The metrics panel of a non-empty channel list: the three head-count
      totals and the average rate rounded to one decimal. Rates that are
      percentages give a shown average between 0.0 and 100.0. */
  function Summarize(data: seq<MarketingRecord>): (r: Summary)
    requires |data| > 0
    ensures r.totalVisitors == Sum(data, VisitorsOf) && r.totalTrials == Sum(data, TrialsOf) && r.totalPaid == Sum(data, PaidOf)
    ensures r.totalVisitors >= 0 && r.totalTrials >= 0 && r.totalPaid >= 0
    ensures r.avgConversionRateTenths == Tenths(AvgConversionRate(data))
    ensures (forall i | 0 <= i < |data| :: 0.0 <= data[i].conversionRate <= 100.0) ==>
      0 <= r.avgConversionRateTenths <= 1000
  {
    ShownAverageIsPercent(data);
    Summary(Sum(data, VisitorsOf), Sum(data, TrialsOf), Sum(data, PaidOf), Tenths(AvgConversionRate(data)))
  }

  /** The average lies within any range that holds every channel's rate;
      in particular, rates in [0, 100] average to a rate in [0, 100]. */
  lemma AvgConversionRateBounds(data: seq<MarketingRecord>, lo: real, hi: real)
    requires |data| > 0
    requires forall i | 0 <= i < |data| :: lo <= data[i].conversionRate <= hi
    ensures lo <= AvgConversionRate(data) <= hi
  {
    MeanBounds(data, RateOf, lo, hi);
  }

  /** Channel rates that are percentages give a shown average between 0.0
      and 100.0 (0 to 1000 tenths). */
  lemma ShownAverageIsPercent(data: seq<MarketingRecord>)
    requires |data| > 0
    ensures (forall i | 0 <= i < |data| :: 0.0 <= data[i].conversionRate <= 100.0) ==>
      0 <= Tenths(AvgConversionRate(data)) <= 1000
  {
    if forall i | 0 <= i < |data| :: 0.0 <= data[i].conversionRate <= 100.0 {
      AvgConversionRateBounds(data, 0.0, 100.0);
    }
  }
}
