/** The conversion heatmap of the marketing page: the desktop 7 x 24 grid
    with its colour scale, and the mobile summary (best hours and per-day
    averages). */
module Heatmap {
  import opened Types
  import opened Sums
  import opened Rounding
  import opened StableSort

  /** Day names, indexed by `HeatmapCell.day` (0 is Sunday). */
  const Days: seq<string> := ["Sun", "Mon", "Tue", "Wed", "Thu", "Fri", "Sat"]

  /** An RGB colour, each channel 0..255. */
  datatype Colour = Rgb(red: int, green: int, blue: int)

  /** `#f8f9fa`, the colour of an empty cell. */
  const Background := Rgb(0xf8, 0xf9, 0xfa)

  /** The smallest and greatest conversion rate of the data. */
  datatype Range = Range(lo: real, hi: real)

  /** One of the mobile "peak performance" rows. `day` is None when the
      cell's day does not index the day names (`days[item.day]` is then
      undefined). */
  datatype PeakTime = PeakTime(day: Option<string>, hour: int, rate: real)

  /** One of the mobile "average by day" rows. */
  datatype DayAverage = DayAverage(day: string, average: real)

  function RateOf(c: HeatmapCell): real { c.conversionRate }

  function AverageOf(a: DayAverage): real { a.average }

  predicate InGrid(c: HeatmapCell)
  {
    0 <= c.day < 7 && 0 <= c.hour < 24
  }

  predicate At(c: HeatmapCell, d: int, h: int)
  {
    c.day == d && c.hour == h
  }

  /** No two cells of `data` share a (day, hour) bucket. */
  ghost predicate UniqueBuckets(data: seq<HeatmapCell>)
  {
    forall i, j | 0 <= i < j < |data| :: !At(data[j], data[i].day, data[i].hour)
  }

  // ---------------------------------------------------------------------
  // Desktop grid

  /** Cell (d, h) of the grid after the fill: the rate of the last item at
      (d, h), because later writes overwrite earlier ones; 0 when no item is
      there. */
  function CellRate(data: seq<HeatmapCell>, d: int, h: int): (r: real)
    ensures r == 0.0 || exists i | 0 <= i < |data| :: At(data[i], d, h) && data[i].conversionRate == r
  {
    if data == [] then 0.0
    else if At(data[|data| - 1], d, h) then data[|data| - 1].conversionRate
    else
      var init := data[..|data| - 1];
      assert forall i | 0 <= i < |init| :: init[i] == data[i];
      CellRate(init, d, h)
  }

  /** Allocates the 7 x 24 grid filled with zeros and writes every in-range
      item's rate into its (day, hour) cell, in input order; items out of
      range are skipped. */
  method BuildMatrix(data: seq<HeatmapCell>) returns (m: array2<real>)
    ensures fresh(m)
    ensures m.Length0 == 7 && m.Length1 == 24
    ensures forall d, h | 0 <= d < 7 && 0 <= h < 24 :: m[d, h] == CellRate(data, d, h)
  {
    m := new real[7, 24]((_, _) => 0.0);
    for i := 0 to |data|
      invariant forall d, h | 0 <= d < 7 && 0 <= h < 24 :: m[d, h] == CellRate(data[..i], d, h)
    {
      var item := data[i];
      if InGrid(item) {
        m[item.day, item.hour] := item.conversionRate;
      }
      assert data[..i + 1][..i] == data[..i];
    }
    assert data[..|data|] == data;
  }

  /** Last write wins: the cell shows the item at index k when no later item
      falls in the same bucket. */
  lemma {:induction false} CellRateLast(data: seq<HeatmapCell>, k: nat)
    requires k < |data|
    requires forall j | k < j < |data| :: !At(data[j], data[k].day, data[k].hour)
    ensures CellRate(data, data[k].day, data[k].hour) == data[k].conversionRate
  {
    if k < |data| - 1 {
      var init := data[..|data| - 1];
      assert forall j | 0 <= j < |init| :: init[j] == data[j];
      CellRateLast(init, k);
    }
  }

  /** A bucket no item falls in stays 0. */
  lemma {:induction false} CellRateAbsent(data: seq<HeatmapCell>, d: int, h: int)
    requires forall i | 0 <= i < |data| :: !At(data[i], d, h)
    ensures CellRate(data, d, h) == 0.0
  {
    if data != [] {
      var init := data[..|data| - 1];
      assert forall j | 0 <= j < |init| :: init[j] == data[j];
      CellRateAbsent(init, d, h);
    }
  }

  /** With unique buckets every item shows in its own cell. */
  lemma CellRateUnique(data: seq<HeatmapCell>, x: HeatmapCell)
    requires UniqueBuckets(data) && x in data
    ensures CellRate(data, x.day, x.hour) == x.conversionRate
  {
  }

  /** With unique buckets the grid does not depend on the order of the
      items, so sorting the shared array in place (as the mobile summary
      does) leaves the desktop grid as it was. */
  lemma CellRateReordered(s: seq<HeatmapCell>, t: seq<HeatmapCell>, d: int, h: int)
    requires UniqueBuckets(s) && UniqueBuckets(t) && multiset(s) == multiset(t)
    ensures CellRate(s, d, h) == CellRate(t, d, h)
  {
    if exists i | 0 <= i < |s| :: At(s[i], d, h) {
      var i :| 0 <= i < |s| && At(s[i], d, h);
      assert s[i] in multiset(t);
      CellRateUnique(s, s[i]);
      CellRateUnique(t, s[i]);
    } else {
      forall j | 0 <= j < |t| ensures !At(t[j], d, h) {
        assert t[j] in multiset(s);
      }
      CellRateAbsent(s, d, h);
      CellRateAbsent(t, d, h);
    }
  }

  /** With unique buckets no item occurs twice. */
  lemma {:induction false} UniqueCountsOnce(s: seq<HeatmapCell>, x: HeatmapCell)
    requires UniqueBuckets(s)
    ensures multiset(s)[x] <= 1
  {
    if s != [] {
      var rest := s[1..];
      assert forall i | 0 <= i < |rest| :: rest[i] == s[i + 1];
      UniqueCountsOnce(rest, x);
      assert s == [s[0]] + rest;
      if s[0] == x {
        forall k | 0 <= k < |rest| ensures rest[k] != x {
          assert !At(s[k + 1], s[0].day, s[0].hour);
        }
      }
    }
  }

  /** Reordering the items keeps the buckets unique. */
  lemma UniqueReordered(s: seq<HeatmapCell>, t: seq<HeatmapCell>)
    requires UniqueBuckets(s) && multiset(s) == multiset(t)
    ensures UniqueBuckets(t)
  {
    forall i, j | 0 <= i < j < |t| ensures !At(t[j], t[i].day, t[i].hour) {
      UniqueCountsOnce(s, t[i]);
      assert t[i] != t[j] by {
        if t[i] == t[j] {
          CountTwo(t, i, j);
        }
      }
      assert t[i] in multiset(s) && t[j] in multiset(s);
      var p :| 0 <= p < |s| && s[p] == t[i];
      var q :| 0 <= q < |s| && s[q] == t[j];
      if p < q {
        assert !At(s[q], s[p].day, s[p].hour);
      } else {
        assert !At(s[p], s[q].day, s[q].hour);
      }
    }
  }

  /** With unique buckets, filling the grid after the mobile summary's
      in-place sort gives the grid of the items in their fetched order. */
  lemma GridAfterMobileSort(s: seq<HeatmapCell>, d: int, h: int)
    requires UniqueBuckets(s)
    ensures CellRate(Sort(s, RateOf), d, h) == CellRate(s, d, h)
  {
    UniqueReordered(s, Sort(s, RateOf));
    CellRateReordered(s, Sort(s, RateOf), d, h);
  }

  /** `Math.min(...rates)` and `Math.max(...rates)` over every item,
      including those the fill skipped. The empty spread gives +Infinity and
      -Infinity in the code; here it is None. */
  function Extent(data: seq<HeatmapCell>): (r: Option<Range>)
    ensures r.None? <==> data == []
    ensures r.Some? ==> forall i | 0 <= i < |data| :: r.value.lo <= data[i].conversionRate <= r.value.hi
    ensures r.Some? ==> exists i | 0 <= i < |data| :: data[i].conversionRate == r.value.lo
    ensures r.Some? ==> exists i | 0 <= i < |data| :: data[i].conversionRate == r.value.hi
  {
    if data == [] then None
    else
      var init, v := data[..|data| - 1], data[|data| - 1].conversionRate;
      assert forall i | 0 <= i < |init| :: init[i] == data[i];
      match Extent(init)
      case None => Some(Range(v, v))
      case Some(Range(lo, hi)) =>
        var lo', hi' := if v < lo then v else lo, if v > hi then v else hi;
        assert exists i | 0 <= i < |data| :: data[i].conversionRate == lo';
        assert exists i | 0 <= i < |data| :: data[i].conversionRate == hi';
        Some(Range(lo', hi'))
  }

  /** A non-empty cell of the grid lies within the extent. */
  lemma CellWithinExtent(data: seq<HeatmapCell>, d: int, h: int)
    requires CellRate(data, d, h) != 0.0
    ensures Extent(data).Some?
    ensures Extent(data).value.lo <= CellRate(data, d, h) <= Extent(data).value.hi
  {
  }

  /** `getColor`: the background for 0, otherwise a blue whose red and green
      fall linearly from (224, 242) at `lo` to (84, 152) at `hi`. The code
      divides by `hi - lo` without a guard. */
  function GetColor(value: real, lo: real, hi: real): (c: Colour)
    requires value == 0.0 || lo != hi
    ensures c == Background <==> value == 0.0
  {
    if value == 0.0 then Background
    else
      var intensity := (value - lo) / (hi - lo);
      Rgb(RoundHalfUp(224.0 - intensity * 140.0), RoundHalfUp(242.0 - intensity * 90.0), 254)
  }

  /** The lowest rate gets the lightest blue, the highest the darkest. */
  lemma GetColorEnds(lo: real, hi: real)
    requires lo < hi
    ensures lo != 0.0 ==> GetColor(lo, lo, hi) == Rgb(224, 242, 254)
    ensures hi != 0.0 ==> GetColor(hi, lo, hi) == Rgb(84, 152, 254)
  {
    assert (hi - lo) / (hi - lo) == 1.0;
  }

  /** Between the ends, red and green never increase as the rate increases
      and stay between the two end colours. */
  lemma GetColorMonotone(v: real, w: real, lo: real, hi: real)
    requires lo <= v <= w <= hi && lo < hi && v != 0.0 && w != 0.0
    ensures GetColor(w, lo, hi).red <= GetColor(v, lo, hi).red
    ensures GetColor(w, lo, hi).green <= GetColor(v, lo, hi).green
    ensures 84 <= GetColor(w, lo, hi).red <= 224 && 152 <= GetColor(w, lo, hi).green <= 242
  {
    var span := hi - lo;
    var s, t := (v - lo) / span, (w - lo) / span;
    assert s * span == v - lo && t * span == w - lo;
    assert 0.0 <= s <= t <= 1.0;
    RoundHalfUpMonotone(224.0 - t * 140.0, 224.0 - s * 140.0);
    RoundHalfUpMonotone(242.0 - t * 90.0, 242.0 - s * 90.0);
    RoundHalfUpMonotone(84.0, 224.0 - t * 140.0);
    RoundHalfUpMonotone(224.0 - t * 140.0, 224.0);
    RoundHalfUpMonotone(152.0, 242.0 - t * 90.0);
    RoundHalfUpMonotone(242.0 - t * 90.0, 242.0);
  }

  /** The legend: eight swatches for `lo + (i / 7) * (hi - lo)`, i = 0..7. */
  function Legend(lo: real, hi: real): (r: seq<Colour>)
    requires lo != hi || lo == 0.0
    ensures |r| == 8
    ensures lo < hi && 0.0 < lo ==> r[0] == Rgb(224, 242, 254) && r[7] == Rgb(84, 152, 254)
  {
    GetColorEndsIfNonZero(lo, hi);
    seq(8, i requires 0 <= i < 8 => GetColor(lo + (i as real / 7.0) * (hi - lo), lo, hi))
  }

  lemma GetColorEndsIfNonZero(lo: real, hi: real)
    ensures lo < hi && 0.0 < lo ==>
      GetColor(lo + (0 as real / 7.0) * (hi - lo), lo, hi) == Rgb(224, 242, 254) &&
      GetColor(lo + (7 as real / 7.0) * (hi - lo), lo, hi) == Rgb(84, 152, 254)
  {
    if lo < hi && 0.0 < lo {
      GetColorEnds(lo, hi);
      assert lo + (7 as real / 7.0) * (hi - lo) == hi;
    }
  }

  // ---------------------------------------------------------------------
  // Mobile summary

  /** `days[d]`, undefined outside 0..6. */
  function DayName(d: int): (r: Option<string>)
    ensures r.Some? <==> 0 <= d < 7
    ensures r.Some? ==> r.value == Days[d]
  {
    if 0 <= d < 7 then Some(Days[d]) else None
  }

  function Peak(c: HeatmapCell): PeakTime
  {
    PeakTime(DayName(c.day), c.hour, c.conversionRate)
  }

  /** The first k items of the stable descending sort by conversion rate
      (`sort(...).slice(0, k)`): min(k, |data|) items in non-increasing rate
      order, none of them with a lower rate than any item left out. */
  function TopByRate(data: seq<HeatmapCell>, k: nat): (r: seq<HeatmapCell>)
    ensures |r| == if k < |data| then k else |data|
    ensures forall i, j | 0 <= i < j < |r| :: r[i].conversionRate >= r[j].conversionRate
    ensures multiset(r) <= multiset(data)
    ensures forall x, y | x in r && y in multiset(data) - multiset(r) :: x.conversionRate >= y.conversionRate
  {
    var sorted := Sort(data, RateOf);
    SortCorrect(data, RateOf);
    var n := if k < |data| then k else |data|;
    SplitSorted(sorted, n);
    sorted[..n]
  }

  /** Cutting a sorted sequence at n: the front is a sub-multiset and
      outranks everything behind the cut. */
  lemma SplitSorted(sorted: seq<HeatmapCell>, n: nat)
    requires n <= |sorted|
    requires SortedDesc(sorted, RateOf)
    ensures multiset(sorted[..n]) <= multiset(sorted)
    ensures forall x, y | x in sorted[..n] && y in multiset(sorted) - multiset(sorted[..n]) ::
      x.conversionRate >= y.conversionRate
  {
    SplitMultiset(sorted, n);
    forall x, y | x in sorted[..n] && y in multiset(sorted) - multiset(sorted[..n])
      ensures x.conversionRate >= y.conversionRate
    {
      FrontOutranks(sorted, n, x, y);
    }
  }

  /** An item in front of the cut has at least the rate of one behind it. */
  lemma FrontOutranks(sorted: seq<HeatmapCell>, n: nat, x: HeatmapCell, y: HeatmapCell)
    requires n <= |sorted|
    requires SortedDesc(sorted, RateOf)
    requires x in sorted[..n] && y in multiset(sorted[n..])
    ensures x.conversionRate >= y.conversionRate
  {
  }

  /** The items behind a cut are what the front leaves of the whole. */
  lemma SplitMultiset<T>(s: seq<T>, n: nat)
    requires n <= |s|
    ensures multiset(s[..n]) <= multiset(s)
    ensures multiset(s) - multiset(s[..n]) == multiset(s[n..])
  {
    assert s == s[..n] + s[n..];
  }

  /** The peak rows of `data`, in order. */
  function Peaks(data: seq<HeatmapCell>): (r: seq<PeakTime>)
    ensures |r| == |data|
    ensures forall i | 0 <= i < |data| :: r[i] == Peak(data[i])
  {
    seq(|data|, i requires 0 <= i < |data| => Peak(data[i]))
  }

  /** `data.sort((a, b) => b.conversionRate - a.conversionRate).slice(0, 3)`:
      sorts the caller's array in place, then reads the three best hours. */
  method BestHours(a: array<HeatmapCell>) returns (best: seq<PeakTime>)
    modifies a
    ensures a[..] == Sort(old(a[..]), RateOf)
    ensures best == Peaks(TopByRate(old(a[..]), 3))
  {
    var sorted := Sort(a[..], RateOf);
    SortCorrect(a[..], RateOf);
    forall i | 0 <= i < a.Length {
      a[i] := sorted[i];
    }
    assert a[..] == sorted;
    var n := if a.Length < 3 then a.Length else 3;
    best := Peaks(a[..n]);
  }

  /** The items of `data` on day d, in order (`data.filter(item => item.day === d)`):
      no more items than `data` has, all of them of day d. */
  function OnDay(data: seq<HeatmapCell>, d: int): (r: seq<HeatmapCell>)
    ensures |r| <= |data|
    ensures forall i | 0 <= i < |r| :: r[i].day == d
  {
    if data == [] then []
    else
      var last := data[|data| - 1];
      OnDay(data[..|data| - 1], d) + (if last.day == d then [last] else [])
  }

  /** The filter keeps exactly the items of day d, each as many times as
      it occurs in `data`. */
  lemma {:induction false} OnDayMembers(data: seq<HeatmapCell>, d: int)
    ensures forall x | x in OnDay(data, d) :: x in data && x.day == d
    ensures forall i | 0 <= i < |data| && data[i].day == d :: data[i] in OnDay(data, d)
    ensures forall x :: multiset(OnDay(data, d))[x] == (if x.day == d then multiset(data)[x] else 0)
  {
    if data != [] {
      var init, last := data[..|data| - 1], data[|data| - 1];
      assert forall i | 0 <= i < |init| :: init[i] == data[i];
      assert data == init + [last];
      OnDayMembers(init, d);
    }
  }

  /** The mean rate of day d, or 0 when the day has no items (the `|| 0`
      fallback for the 0 / 0 of an empty day). */
  function DayMean(data: seq<HeatmapCell>, d: int): (r: real)
    ensures var items := OnDay(data, d);
      if items == [] then r == 0.0 else r * |items| as real == RealSum(items, RateOf)
  {
    var items := OnDay(data, d);
    if items == [] then 0.0
    else
      var m := Mean(items, RateOf);
      assert m * |items| as real == RealSum(items, RateOf);
      m
  }

  /** A day's mean lies within any range that holds all of that day's
      rates, and a day without items averages 0. */
  lemma DayMeanBounds(data: seq<HeatmapCell>, d: int, lo: real, hi: real)
    requires forall i | 0 <= i < |data| && data[i].day == d :: lo <= data[i].conversionRate <= hi
    ensures (exists i | 0 <= i < |data| :: data[i].day == d) ==> lo <= DayMean(data, d) <= hi
    ensures (forall i | 0 <= i < |data| :: data[i].day != d) ==> DayMean(data, d) == 0.0
  {
    var items := OnDay(data, d);
    OnDayMembers(data, d);
    if items != [] {
      forall i | 0 <= i < |items| ensures lo <= items[i].conversionRate <= hi {
        assert items[i] in items;
        var j :| 0 <= j < |data| && data[j] == items[i];
      }
      MeanBounds(items, RateOf, lo, hi);
    }
  }

  /** The seven day rows in day order, before sorting. */
  function PerDay(data: seq<HeatmapCell>): (r: seq<DayAverage>)
    ensures |r| == 7
    ensures forall d | 0 <= d < 7 :: r[d] == DayAverage(Days[d], DayMean(data, d))
  {
    seq(7, d requires 0 <= d < 7 => DayAverage(Days[d], DayMean(data, d)))
  }

  /** The seven day rows sorted by non-increasing average; days with equal
      averages keep their Sunday-to-Saturday order. */
  function DayAverages(data: seq<HeatmapCell>): (r: seq<DayAverage>)
    ensures |r| == 7
    ensures multiset(r) == multiset(PerDay(data))
    ensures forall i, j | 0 <= i < j < |r| :: r[i].average >= r[j].average
    ensures forall v :: WithKey(r, AverageOf, v) == WithKey(PerDay(data), AverageOf, v)
  {
    SortCorrect(PerDay(data), AverageOf);
    Sort(PerDay(data), AverageOf)
  }

  /** Every day appears in the sorted rows, with its own mean. */
  lemma DayAveragesCoverEveryDay(data: seq<HeatmapCell>, d: nat)
    requires d < 7
    ensures exists j | 0 <= j < 7 :: DayAverages(data)[j] == DayAverage(Days[d], DayMean(data, d))
  {
    var r, p := DayAverages(data), PerDay(data);
    assert p[d] in multiset(r);
  }

  /** No day appears twice in the sorted rows. */
  lemma DayAveragesDistinct(data: seq<HeatmapCell>)
    ensures forall j, k | 0 <= j < k < 7 :: DayAverages(data)[j].day != DayAverages(data)[k].day
  {
    var r, p := DayAverages(data), PerDay(data);
    DaysDistinct();
    assert forall i, j | 0 <= i < j < |p| :: p[i].day != p[j].day;
    forall j, k | 0 <= j < k < 7 ensures r[j].day != r[k].day {
      if r[j].day == r[k].day {
        assert r[j] in multiset(p) && r[k] in multiset(p);
        var j', k' :| 0 <= j' < 7 && 0 <= k' < 7 && p[j'] == r[j] && p[k'] == r[k];
        assert r[j] == r[k];
        CountTwo(r, j, k);
        CountAtMostOne(p, r[j]);
        assert false;
      }
    }
  }

  lemma DaysDistinct()
    ensures forall i, j | 0 <= i < j < 7 :: Days[i] != Days[j]
  {
  }

  /** A value at two positions is counted at least twice. */
  lemma CountTwo<T>(s: seq<T>, j: nat, k: nat)
    requires j < k < |s| && s[j] == s[k]
    ensures multiset(s)[s[j]] >= 2
  {
    assert s == s[..j] + [s[j]] + s[j + 1..k] + [s[k]] + s[k + 1..];
  }

  /** The day rows are pairwise different, so each is counted once. */
  lemma CountAtMostOne(p: seq<DayAverage>, x: DayAverage)
    requires forall i, j | 0 <= i < j < |p| :: p[i].day != p[j].day
    ensures multiset(p)[x] <= 1
  {
    if p != [] {
      CountAtMostOne(p[1..], x);
      assert p == [p[0]] + p[1..];
      if p[0] == x {
        assert x !in p[1..];
      }
    }
  }

  /** The mobile summary: the best hours (sorting the caller's array in
      place) and then the day averages of the now reordered array. */
  method MobileSummary(a: array<HeatmapCell>) returns (best: seq<PeakTime>, averages: seq<DayAverage>)
    modifies a
    ensures a[..] == Sort(old(a[..]), RateOf)
    ensures best == Peaks(TopByRate(old(a[..]), 3))
    ensures averages == DayAverages(a[..])
  {
    best := BestHours(a);
    averages := DayAverages(a[..]);
  }

  /** The page's heatmap section: the mobile and the desktop view are both
      rendered from the same array, the mobile summary first, so the desktop
      grid is filled from the array the summary has sorted in place. */
  method ConversionHeatmap(a: array<HeatmapCell>)
    returns (best: seq<PeakTime>, averages: seq<DayAverage>, m: array2<real>)
    modifies a
    ensures a[..] == Sort(old(a[..]), RateOf)
    ensures best == Peaks(TopByRate(old(a[..]), 3))
    ensures averages == DayAverages(a[..])
    ensures fresh(m) && m.Length0 == 7 && m.Length1 == 24
    ensures forall d, h | 0 <= d < 7 && 0 <= h < 24 :: m[d, h] == CellRate(Sort(old(a[..]), RateOf), d, h)
  {
    best, averages := MobileSummary(a);
    m := BuildMatrix(a[..]);
  }
}
