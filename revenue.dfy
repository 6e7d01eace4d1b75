/** The derived figures of the revenue page: the current month's net
    revenue, the refund rate, the average monthly growth and the plan
    distribution. All of them read only the first and the last month. */
module Revenue {
  import opened Types
  import opened Rounding

  /** One slice of the current month's plan distribution pie. */
  datatype Slice = Slice(name: string, amount: int)

  function Last(data: seq<RevenueRecord>): RevenueRecord
    requires data != []
  {
    data[|data| - 1]
  }

  /** `latestMonth?.netRevenue || 0`: the last month's net revenue, 0 for an
      empty series. */
  function CurrentNetRevenue(data: seq<RevenueRecord>): (r: int)
    ensures data == [] ==> r == 0
    ensures data != [] ==> r == data[|data| - 1].netRevenue
  {
    if data == [] then 0 else Last(data).netRevenue
  }

  /** Refunds as a percentage of net revenue in the last month, 0 for an
      empty series. The code divides without a guard, so a non-empty
      series must end in a month with non-zero net revenue. */
  function RefundRate(data: seq<RevenueRecord>): (r: real)
    requires data != [] ==> Last(data).netRevenue != 0
    ensures data == [] ==> r == 0.0
    ensures data != [] ==> r * Last(data).netRevenue as real == 100.0 * Last(data).refunds as real
  {
    if data == [] then 0.0
    else
      var m := Last(data);
      m.refunds as real / m.netRevenue as real * 100.0
  }

  /** The relative change from the first to the last month, spread evenly
      over the months between them, in percent; 0 for fewer than two
      months. The code divides by the first month's net revenue without a
      guard. */
  function AvgMonthlyGrowth(data: seq<RevenueRecord>): (r: real)
    requires |data| > 1 ==> data[0].netRevenue != 0
    ensures |data| <= 1 ==> r == 0.0
    ensures |data| > 1 ==>
      data[0].netRevenue as real * (1.0 + r * (|data| - 1) as real / 100.0) == Last(data).netRevenue as real
  {
    if |data| > 1 then
      var first, last := data[0].netRevenue as real, Last(data).netRevenue as real;
      var months := (|data| - 1) as real;
      var r := (last - first) / first / months * 100.0;
      GrowthInverse(first, last, months, r);
      r
    else 0.0
  }

  /** Undoing the growth formula. */
  lemma GrowthInverse(first: real, last: real, months: real, r: real)
    requires first != 0.0 && months > 0.0
    requires r == (last - first) / first / months * 100.0
    ensures first * (1.0 + r * months / 100.0) == last
  {
  }

  /** For a series that starts with positive revenue, the growth is positive
      exactly when the last month earned more than the first, and zero
      exactly when they are equal. */
  lemma GrowthSign(data: seq<RevenueRecord>)
    requires |data| > 1 && data[0].netRevenue > 0
    ensures AvgMonthlyGrowth(data) > 0.0 <==> Last(data).netRevenue > data[0].netRevenue
    ensures AvgMonthlyGrowth(data) == 0.0 <==> Last(data).netRevenue == data[0].netRevenue
  {
  }

  /** Only the first and the last month matter: two series of the same
      length that agree on those give the same figures. */
  lemma EndpointsDetermineFigures(a: seq<RevenueRecord>, b: seq<RevenueRecord>)
    requires |a| == |b| && a != []
    requires a[0] == b[0] && Last(a) == Last(b)
    requires Last(a).netRevenue != 0
    requires |a| > 1 ==> a[0].netRevenue != 0
    ensures CurrentNetRevenue(a) == CurrentNetRevenue(b)
    ensures RefundRate(a) == RefundRate(b)
    ensures AvgMonthlyGrowth(a) == AvgMonthlyGrowth(b)
    ensures PlanDistribution(a) == PlanDistribution(b)
  {
  }

  /** The pie of the current month: absent for an empty series, otherwise
      the Starter, Pro and Enterprise amounts of the last month. */
  function PlanDistribution(data: seq<RevenueRecord>): (r: Option<seq<Slice>>)
    ensures r.None? <==> data == []
    ensures r.Some? ==> |r.value| == 3
    ensures r.Some? ==> r.value[0].name == "Starter" && r.value[1].name == "Pro" && r.value[2].name == "Enterprise"
    ensures r.Some? ==>
      (r.value[0].amount + r.value[1].amount + r.value[2].amount ==
       Last(data).starter + Last(data).pro + Last(data).enterprise)
    ensures r.Some? ==>
      r.value[0].amount == Last(data).starter && r.value[1].amount == Last(data).pro &&
      r.value[2].amount == Last(data).enterprise
  {
    if data == [] then None
    else
      var m := Last(data);
      Some([Slice("Starter", m.starter), Slice("Pro", m.pro), Slice("Enterprise", m.enterprise)])
  }

  /** The page's revenue metrics as shown: the current net revenue, and the
      refund rate and the average monthly growth after `toFixed(1)`, as
      whole numbers of tenths of a percent. */
  datatype Metrics = Metrics(currentNetRevenue: int, refundRateTenths: int, growthTenths: int)

  /** The metrics panel. The shown growth has the sign of the change from
      the first to the last month (a small change may show as 0.0), and
      refunds within the month's net revenue show as a rate in [0.0, 100.0]. */
  function Summarize(data: seq<RevenueRecord>): (r: Metrics)
    requires data != [] ==> Last(data).netRevenue != 0
    requires |data| > 1 ==> data[0].netRevenue != 0
    ensures r.currentNetRevenue == CurrentNetRevenue(data)
    ensures r.refundRateTenths == Tenths(RefundRate(data))
    ensures r.growthTenths == Tenths(AvgMonthlyGrowth(data))
    ensures |data| <= 1 ==> r.growthTenths == 0
    ensures |data| > 1 && data[0].netRevenue > 0 && Last(data).netRevenue >= data[0].netRevenue ==> r.growthTenths >= 0
    ensures |data| > 1 && data[0].netRevenue > 0 && Last(data).netRevenue <= data[0].netRevenue ==> r.growthTenths <= 0
    ensures data != [] && 0 <= Last(data).refunds <= Last(data).netRevenue ==> 0 <= r.refundRateTenths <= 1000
  {
    ShownFigures(data);
    Metrics(CurrentNetRevenue(data), Tenths(RefundRate(data)), Tenths(AvgMonthlyGrowth(data)))
  }

  /** What rounding to one decimal keeps of the growth's sign and of the
      refund rate's range. */
  lemma ShownFigures(data: seq<RevenueRecord>)
    requires data != [] ==> Last(data).netRevenue != 0
    requires |data| > 1 ==> data[0].netRevenue != 0
    ensures |data| > 1 && data[0].netRevenue > 0 && Last(data).netRevenue >= data[0].netRevenue ==>
      Tenths(AvgMonthlyGrowth(data)) >= 0
    ensures |data| > 1 && data[0].netRevenue > 0 && Last(data).netRevenue <= data[0].netRevenue ==>
      Tenths(AvgMonthlyGrowth(data)) <= 0
    ensures data != [] && 0 <= Last(data).refunds <= Last(data).netRevenue ==>
      0 <= Tenths(RefundRate(data)) <= 1000
  {
    if |data| > 1 && data[0].netRevenue > 0 {
      GrowthSign(data);
    }
    if data != [] && 0 <= Last(data).refunds <= Last(data).netRevenue {
      RefundRateIsPercent(data);
    }
  }

  /** Refunds within the month's net revenue give a rate in [0, 100]. */
  lemma RefundRateIsPercent(data: seq<RevenueRecord>)
    requires data != [] && Last(data).netRevenue != 0
    requires 0 <= Last(data).refunds <= Last(data).netRevenue
    ensures 0.0 <= RefundRate(data) <= 100.0
  {
    var net, refunds := Last(data).netRevenue as real, Last(data).refunds as real;
    assert 0.0 < net && 0.0 <= refunds <= net;
    assert refunds / net <= 1.0;
  }
}
