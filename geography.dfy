/** The derived figures of the geography page: totals, average revenue per
    user, the top city, the revenue ranking and the chart labels. */
module Geography {
  import opened Types
  import opened Sums
  import opened Rounding
  import opened StableSort

  /** What the metrics panel shows. */
  datatype Summary = Summary(
    totalRevenue: int,
    totalUsers: int,
    avgRevenuePerUser: int,
    topCity: GeoRecord)

  /** `reduce` without an initial value throws on an empty array. */
  datatype Error = EmptyInput

  datatype Result<+T> = Success(value: T) | Failure(error: Error)

  /** One bar of the revenue and users charts. */
  datatype ChartEntry = ChartEntry(record: GeoRecord, chartLabel: string)

  function RevenueOf(g: GeoRecord): int { g.revenue }

  function UsersOf(g: GeoRecord): int { g.users }

  function RevenueKey(g: GeoRecord): real { g.revenue as real }

  /** The revenue total: 0 for no locations, and not negative when no
      location's revenue is. */
  function TotalRevenue(data: seq<GeoRecord>): (r: int)
    ensures data == [] ==> r == 0
    ensures (forall i | 0 <= i < |data| :: data[i].revenue >= 0) ==> r >= 0
  {
    Sum(data, RevenueOf)
  }

  /** The user total: 0 for no locations, and never negative. */
  function TotalUsers(data: seq<GeoRecord>): (r: int)
    ensures data == [] ==> r == 0
    ensures r >= 0
  {
    Sum(data, UsersOf)
  }

  /** Total revenue over total users, rounded to a whole amount as
      `toFixed(0)` rounds (halves away from zero), and 0 unless there are
      users. */
  function AvgRevenuePerUser(totalRevenue: int, totalUsers: int): (r: int)
    ensures totalUsers <= 0 ==> r == 0
    ensures totalUsers > 0 && totalRevenue >= 0 ==>
      var q := totalRevenue as real / totalUsers as real; r as real - 0.5 <= q < r as real + 0.5
    ensures totalUsers > 0 && totalRevenue < 0 ==>
      var q := totalRevenue as real / totalUsers as real; r as real - 0.5 < q <= r as real + 0.5
  {
    if totalUsers > 0 then RoundHalfAway(totalRevenue as real / totalUsers as real) else 0
  }

  /** `data.reduce((prev, current) => prev.revenue > current.revenue ? prev : current)`:
      a record of greatest revenue; on a tie the later record wins, because
      `prev` is kept only when strictly greater. */
  function TopCity(data: seq<GeoRecord>): (r: GeoRecord)
    requires |data| > 0
    ensures r in data
    ensures forall i | 0 <= i < |data| :: data[i].revenue <= r.revenue
    ensures exists k | 0 <= k < |data| :: data[k] == r && forall j | k < j < |data| :: data[j].revenue < r.revenue
  {
    if |data| == 1 then data[0]
    else
      var init := data[..|data| - 1];
      var prev := TopCity(init);
      var current := data[|data| - 1];
      assert forall i | 0 <= i < |init| :: init[i] == data[i];
      if prev.revenue > current.revenue then
        var k :| 0 <= k < |init| && init[k] == prev && forall j | k < j < |init| :: init[j].revenue < prev.revenue;
        assert data[k] == prev && forall j | k < j < |data| :: data[j].revenue < prev.revenue;
        prev
      else
        assert forall i | 0 <= i < |data| :: data[i].revenue <= current.revenue;
        assert data[|data| - 1] == current;
        current
  }

  /** The metrics panel: fails on an empty location list, as the reduce
      without an initial value does. */
  function Summarize(data: seq<GeoRecord>): (r: Result<Summary>)
    ensures r.Failure? <==> data == []
    ensures r.Success? ==> r.value.topCity in data
    ensures r.Success? ==> forall i | 0 <= i < |data| :: data[i].revenue <= r.value.topCity.revenue
    ensures r.Success? ==> r.value.totalUsers == 0 ==> r.value.avgRevenuePerUser == 0
    ensures r.Success? ==> r.value == Summary(TotalRevenue(data), TotalUsers(data),
      AvgRevenuePerUser(TotalRevenue(data), TotalUsers(data)), TopCity(data))
  {
    if data == [] then Failure(EmptyInput)
    else
      var revenue, users := TotalRevenue(data), TotalUsers(data);
      Success(Summary(revenue, users, AvgRevenuePerUser(revenue, users), TopCity(data)))
  }

  /** `[...data].sort((a, b) => b.revenue - a.revenue)`: a new sequence (the
      input is a value and stays as it was) that is a permutation of the
      input, in non-increasing revenue order, in which locations with equal
      revenue keep their input order. */
  function Ranking(data: seq<GeoRecord>): (r: seq<GeoRecord>)
    ensures |r| == |data|
    ensures multiset(r) == multiset(data)
    ensures forall i, j | 0 <= i < j < |r| :: r[i].revenue >= r[j].revenue
    ensures forall v :: WithKey(r, RevenueKey, v) == WithKey(data, RevenueKey, v)
  {
    SortCorrect(data, RevenueKey);
    Sort(data, RevenueKey)
  }

  /** The ranking shows the same totals as the unsorted list. */
  lemma RankingKeepsTotals(data: seq<GeoRecord>)
    ensures TotalRevenue(Ranking(data)) == TotalRevenue(data)
    ensures TotalUsers(Ranking(data)) == TotalUsers(data)
  {
    SumPermutation(Ranking(data), data, RevenueOf);
    SumPermutation(Ranking(data), data, UsersOf);
  }

  /** The first place of the ranking has the top city's revenue. */
  lemma RankingLeaderIsTop(data: seq<GeoRecord>)
    requires |data| > 0
    ensures Ranking(data)[0].revenue == TopCity(data).revenue
  {
    var r := Ranking(data);
    assert r[0] in multiset(data);
    assert TopCity(data) in multiset(r);
  }

  /** `Math.round(revenue / users)` for one location; the code has no guard
      for a location without users. */
  function RevenuePerUser(g: GeoRecord): (r: int)
    requires g.users > 0
    ensures var q := g.revenue as real / g.users as real; r as real - 0.5 <= q < r as real + 0.5
  {
    RoundHalfUp(g.revenue as real / g.users as real)
  }

  /** The bar label of a location. */
  function Label(g: GeoRecord): (r: string)
    ensures |r| == |g.city| + 2 + |g.country|
    ensures r[..|g.city|] == g.city && r[|g.city|..|g.city| + 2] == ", " && r[|g.city| + 2..] == g.country
  {
    g.city + ", " + g.country
  }

  /** The bar chart data: one entry per location, in input order. */
  function ChartData(data: seq<GeoRecord>): (r: seq<ChartEntry>)
    ensures |r| == |data|
    ensures forall i | 0 <= i < |data| :: r[i].record == data[i] && r[i].chartLabel == data[i].city + ", " + data[i].country
  {
    if data == [] then []
    else ChartData(data[..|data| - 1]) + [ChartEntry(data[|data| - 1], Label(data[|data| - 1]))]
  }
}
