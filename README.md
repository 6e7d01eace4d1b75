# Analytics dashboard: derived metrics, verified

This project models the derived-metric layer of a client-side analytics
dashboard. It covers the arithmetic that the Geography, Marketing and
Revenue pages run inline while rendering. The pages turn record sequences
into totals, means, a top city, a revenue ranking, chart labels, a 7 x 24
conversion heatmap with a colour scale, "best hours" and per-day averages,
a refund rate, an average monthly growth and a plan distribution.

Modules:

- `Types` holds the record shapes: revenue month, marketing channel, location and heatmap cell.
- `Sums` holds the `reduce((sum, item) => sum + item.x, 0)` totals and the mean built on them.
- `Rounding` holds `Math.round` (halves up) and the rounding of `toFixed` (halves away from zero), on exact rationals.
- `StableSort` models `Array.prototype.sort` with a `b.key - a.key` comparator. That sort is stable, and its output is in non-increasing key order.
- `Geography`, `Marketing`, `Heatmap` and `Revenue` hold the figures of the three pages. `Heatmap` covers the desktop grid and the mobile summary of the marketing page.
- `Scenarios` holds worked cases on small inputs and on the dashboard's sample data.

Two operations change state in the code, and the model keeps that form:

- The desktop heatmap allocates a 7 x 24 matrix of zeros and writes cells in a loop. This is `Heatmap.BuildMatrix`, a method over an `array2<real>` with a loop invariant.
- The mobile summary sorts the caller's array in place. This is `Heatmap.BestHours`, a method with `modifies a`.

Both heatmap views are rendered from the same array, the mobile summary first (src/pages/MarketingPage.tsx:266-278). The desktop grid is therefore filled from the array the summary has just sorted. `Heatmap.ConversionHeatmap` composes the two. With unique (day, hour) pairs the grid is the same as for the fetched order (`Heatmap.GridAfterMobileSort`). When two items share a pair, the cell shows the one the descending sort puts last, the lower rate (`Scenarios.DuplicateBucketAfterSort`).

Everything else is a function. Rates and means are exact `real`s. Revenue and head counts are `int`s.

Some behaviour of the code is easy to misread. The model follows the code:

- **Top city on a tie.** One might expect the first record of greatest revenue to win. The reduce keeps `prev` only when its revenue is strictly greater, so the later record wins (`Scenarios.TopCityTieTakesLater`). The ranking, by contrast, leads with the earlier one (`Scenarios.TieLeaderIsNotTopCity`).
- **Refund rate and growth with zero revenue.** The code divides without a guard, so a zero denominator shows `Infinity` or `NaN` rather than 0. The model makes a non-zero denominator a precondition.
- **Order of equal conversion rates in the best hours.** No tie-break is written; the sort is stable, so equal rates keep their input order.
- **Min and max of an empty heatmap.** `Math.min`/`Math.max` of an empty spread give +/-Infinity. The model returns `None`.

## Model

| member | source | states |
|---|---|---|
| Sums.Sum | src/pages/GeographyPage.tsx:9-10 | the reduce total from an initial 0: no terms total 0, and non-negative terms never total below 0 |
| Sums.RealSum | src/pages/MarketingPage.tsx:12 | the reduce total of rates from an initial 0: no terms total 0, one term totals itself |
| Sums.Mean | src/pages/MarketingPage.tsx:12 | the mean taken once per term gives back the total |
| Sums.SumAppend | src/pages/GeographyPage.tsx:9-10 | a total over a concatenation is the sum of the totals of the parts |
| Sums.SumPermutation | src/pages/GeographyPage.tsx:9-10 | a total does not depend on record order: every record is counted exactly once |
| Sums.RealSumBounds | src/pages/MarketingPage.tsx:12 | if every term lies in [lo, hi], the total of n terms lies in [n*lo, n*hi] |
| Sums.MeanBounds | src/pages/MarketingPage.tsx:12 | if every term lies in [lo, hi], the mean lies in [lo, hi] |
| Rounding.RoundHalfUp | src/pages/GeographyPage.tsx:178 | Math.round gives the integer r with r - 1/2 <= x < r + 1/2 |
| Rounding.RoundHalfAway | src/pages/GeographyPage.tsx:11 | toFixed(0) gives the nearest integer; halves go away from zero |
| Rounding.Tenths | src/pages/MarketingPage.tsx:12 | toFixed(1) gives the nearest whole number of tenths; halves go away from zero |
| StableSort.Sort | src/pages/GeographyPage.tsx:193 | the sort keeps every element with its multiplicity, and the length |
| StableSort.InsertPermutes | src/pages/GeographyPage.tsx:193 | inserting adds exactly the one element |
| StableSort.InsertSorted | src/pages/GeographyPage.tsx:193 | inserting into a non-increasing sequence keeps it non-increasing |
| StableSort.InsertWithKey | src/pages/GeographyPage.tsx:193 | the inserted element goes ahead of every element with an equal key |
| StableSort.SortCorrect | src/pages/GeographyPage.tsx:193 | the sort returns a permutation of the input, in non-increasing key order; equal keys keep their input order |
| Geography.TotalRevenue | src/pages/GeographyPage.tsx:9 | 0 for no locations; not negative when no location's revenue is |
| Geography.TotalUsers | src/pages/GeographyPage.tsx:10 | 0 for no locations; never negative |
| Geography.AvgRevenuePerUser | src/pages/GeographyPage.tsx:11 | 0 unless totalUsers > 0; otherwise totalRevenue / totalUsers rounded to the nearest whole amount, halves away from zero |
| Geography.TopCity | src/pages/GeographyPage.tsx:12 | the result is a record of the input; no record has more revenue; every later record has strictly less, so on a tie the later record wins |
| Geography.Summarize | src/pages/GeographyPage.tsx:8-12 | fails exactly on an empty list (reduce without an initial value); otherwise the revenue and user totals, the rounded average of revenue per user (0 without users) and the top city, the last record of maximal revenue |
| Geography.Ranking | src/pages/GeographyPage.tsx:192-193 | the ranking is a permutation of the input, in non-increasing revenue order; equal revenues keep their input order |
| Geography.RankingKeepsTotals | src/pages/GeographyPage.tsx:231-232 | the ranking has the same total revenue and total users as the input |
| Geography.RankingLeaderIsTop | src/pages/GeographyPage.tsx:12 | the first ranked location has the top city's revenue |
| Geography.RevenuePerUser | src/pages/GeographyPage.tsx:178 | for a location with users, Math.round(revenue / users): the nearest integer, halves up |
| Geography.Label | src/pages/GeographyPage.tsx:40 | the label is the city, then ", ", then the country: each part can be read back at its place |
| Geography.ChartData | src/pages/GeographyPage.tsx:38-41 | one entry per location, in input order, labelled "city, country" |
| Marketing.AvgConversionRate | src/pages/MarketingPage.tsx:12 | the mean of the channels' own rates: times the channel count it gives the total of the rates |
| Marketing.Summarize | src/pages/MarketingPage.tsx:9-12 | visitor, trial and paid totals are the sums over the channels, never negative; the average is the mean rate after toFixed(1), in tenths; percentage rates give a shown average in [0.0, 100.0] |
| Marketing.ShownAverageIsPercent | src/pages/MarketingPage.tsx:12 | channel rates in [0, 100] give a toFixed(1) average between 0 and 1000 tenths |
| Marketing.AvgConversionRateBounds | src/pages/MarketingPage.tsx:12 | the average lies within any range holding every channel's rate |
| Heatmap.BuildMatrix | src/pages/MarketingPage.tsx:190-197 | a fresh 7 x 24 matrix whose cell (d, h) is CellRate(data, d, h): the last item written there, else the initial 0 |
| Heatmap.CellRate | src/pages/MarketingPage.tsx:193-197 | a cell is 0 or the rate of an item in that (day, hour) |
| Heatmap.CellRateLast | src/pages/MarketingPage.tsx:193-197 | last write wins: a cell shows the item at k when no later item falls in that (day, hour) |
| Heatmap.CellRateAbsent | src/pages/MarketingPage.tsx:190 | a cell no item falls in stays 0 |
| Heatmap.CellRateUnique | src/pages/MarketingPage.tsx:193-197 | with unique (day, hour) pairs, every item shows in its own cell |
| Heatmap.UniqueReordered | src/pages/MarketingPage.tsx:128-129 | reordering the items, as the in-place sort does, keeps (day, hour) pairs unique |
| Heatmap.GridAfterMobileSort | src/pages/MarketingPage.tsx:193-197 | with unique pairs, the grid filled after the mobile summary's sort equals the grid of the fetched order |
| Heatmap.CellRateReordered | src/pages/MarketingPage.tsx:128-129 | with unique pairs, reordering the items (as the in-place sort does) leaves every cell unchanged |
| Heatmap.Extent | src/pages/MarketingPage.tsx:200-202 | None exactly for no items; otherwise min <= every item's rate <= max, both attained, skipped items included |
| Heatmap.CellWithinExtent | src/pages/MarketingPage.tsx:200-202 | a non-zero cell lies between the min and the max |
| Heatmap.GetColor | src/pages/MarketingPage.tsx:204-208 | the background colour exactly when the value is 0 |
| Heatmap.GetColorEnds | src/pages/MarketingPage.tsx:206-207 | with min < max, the min maps to rgb(224,242,254) and the max to rgb(84,152,254) |
| Heatmap.GetColorMonotone | src/pages/MarketingPage.tsx:206-207 | between min and max, red and green never increase as the value grows, and stay between the two end colours |
| Heatmap.Legend | src/pages/MarketingPage.tsx:249-255 | eight swatches; with 0 < min < max, the first is the lightest and the last the darkest end colour |
| Heatmap.DayName | src/pages/MarketingPage.tsx:133 | a day name exactly for days 0..6, and then the name at that index |
| Heatmap.TopByRate | src/pages/MarketingPage.tsx:128-130 | min(k, n) items in non-increasing rate order, taken from the input, none below any item left out |
| Heatmap.SplitSorted | src/pages/MarketingPage.tsx:130 | cutting a sorted sequence: the front outranks everything behind the cut |
| Heatmap.Peaks | src/pages/MarketingPage.tsx:131-135 | one row per item, in order, with day name, hour and rate |
| Heatmap.BestHours | src/pages/MarketingPage.tsx:128-135 | the caller's array ends up stably sorted by rate; the result is the rows of the first three |
| Heatmap.OnDay | src/pages/MarketingPage.tsx:139 | the day filter returns no more items than it is given, all of that day |
| Heatmap.OnDayMembers | src/pages/MarketingPage.tsx:139 | the day filter keeps exactly the items of that day, each with its multiplicity in the input |
| Heatmap.DayMean | src/pages/MarketingPage.tsx:140-141 | 0 for a day without items; otherwise the mean (times the count it gives the day's total) |
| Heatmap.DayMeanBounds | src/pages/MarketingPage.tsx:140-141 | a day's mean lies within any range holding that day's rates; a day without items averages 0 |
| Heatmap.PerDay | src/pages/MarketingPage.tsx:138-141 | seven rows, Sunday to Saturday, each with its day's mean |
| Heatmap.DayAverages | src/pages/MarketingPage.tsx:138-142 | seven rows, a permutation of the per-day rows, in non-increasing average; equal averages keep day order |
| Heatmap.DayAveragesCoverEveryDay | src/pages/MarketingPage.tsx:138-142 | every day appears with its own mean |
| Heatmap.DayAveragesDistinct | src/pages/MarketingPage.tsx:138-142 | no day appears twice |
| Heatmap.ConversionHeatmap | src/pages/MarketingPage.tsx:266-278 | the mobile summary sorts the shared array in place, then the desktop grid is filled from it: every cell is the CellRate of the sorted items |
| Heatmap.MobileSummary | src/pages/MarketingPage.tsx:124-142 | sorts the caller's array in place, takes the best three hours, then averages the reordered array by day |
| Revenue.CurrentNetRevenue | src/pages/RevenuePage.tsx:9-10 | the last month's net revenue, 0 for an empty series |
| Revenue.RefundRate | src/pages/RevenuePage.tsx:11 | 0 for an empty series; otherwise rate * net revenue = 100 * refunds for the last month |
| Revenue.AvgMonthlyGrowth | src/pages/RevenuePage.tsx:12-14 | 0 for fewer than two months; otherwise growing the first month by rate * (n - 1) percent gives the last month |
| Revenue.GrowthSign | src/pages/RevenuePage.tsx:12-14 | when the first month is positive, growth is positive exactly when the last month exceeds the first, and zero exactly when they are equal |
| Revenue.EndpointsDetermineFigures | src/pages/RevenuePage.tsx:9-14 | series that agree on length, first and last month give the same current revenue, refund rate, growth and plan distribution |
| Revenue.PlanDistribution | src/pages/RevenuePage.tsx:75-82 | absent for an empty series; otherwise the Starter, Pro and Enterprise slices, each the last month's amount for that plan, adding up to the month's plan revenue |
| Revenue.Summarize | src/pages/RevenuePage.tsx:9-14 | the current net revenue, and the refund rate and growth after toFixed(1), in tenths; growth shows with the sign of the change, and refunds within net revenue show as a rate in [0.0, 100.0] |
| Revenue.ShownFigures | src/pages/RevenuePage.tsx:11-14 | rounding to tenths keeps the sign of the growth and the [0, 100] range of the refund rate |
| Revenue.RefundRateIsPercent | src/pages/RevenuePage.tsx:11 | refunds within the month's net revenue give a rate in [0, 100] |
| Scenarios.RankingTieKeepsInputOrder | src/pages/GeographyPage.tsx:193 | [A 100, B 100, C 200] ranks as [C, A, B] |
| Scenarios.TopCityTieTakesLater | src/pages/GeographyPage.tsx:12 | of A and B with equal revenue, B is the top city |
| Scenarios.TieLeaderIsNotTopCity | src/pages/GeographyPage.tsx:12 | of A and B with equal revenue, the ranking leads with A while the top city is B |
| Scenarios.DuplicateBucketAfterSort | src/pages/MarketingPage.tsx:193-197 | items (0, 0, 1.0) then (0, 0, 2.0): the fetched order shows 2.0, the order after the mobile sort shows 1.0 |
| Scenarios.SampleMarketingAverage | src/pages/MarketingPage.tsx:12 | the four sample channels average 15.925 %, shown as 15.9 |
| Scenarios.TwoMonthRevenue | src/pages/RevenuePage.tsx:9-14 | 150000 then 205000 with 5200 refunds: the panel shows 205000, a refund rate of 2.5 and growth of 36.7 |

## Left out

- Rendering is not modelled: JSX, recharts, framer-motion, Tailwind classes, Suspense fallbacks, the chart colour palettes and the `window.innerWidth` check (src/pages/MarketingPage.tsx:238). It has no derived value.
- Data loading is not modelled: `useState`/`useEffect`, the async fetches, `Promise.all` and `console.error` in the three pages. It is framework state and I/O.
- src/services/mockData.ts is not part of this model. Its fetch functions only delay constants. Some sample values appear in `Scenarios` as inputs.
- KPI cards, the live indicator, polling setup, tab switching, the navbar, the overview page, the growth line chart, the configuration files and the UI test are not part of this model. They are presentation or framework code.
- Plain field projections for charts are left out: the scatter data (src/pages/GeographyPage.tsx:98-103), the funnel and pie data of the marketing page, and the `Math.sqrt` bubble scale (src/pages/GeographyPage.tsx:161).
- String formatting is left out: `toLocaleString`, the `rgb(...)` strings and the lat/lng display. `toFixed` is modelled as its rounding (`Rounding.RoundHalfAway`, `Rounding.Tenths`), applied where a derived figure is shown: `Geography.AvgRevenuePerUser`, `Marketing.Summarize` and `Revenue.Summarize`. The `toFixed(1)` of the best hours, the day averages, the heatmap cells and the legend range (src/pages/MarketingPage.tsx:159, 174, 238, 258) is display only and is not modelled.
- Floating point is not modelled. All arithmetic is exact on rationals, so doubles' representation error and its effect on the half-cases of `Math.round`/`toFixed` are not captured.
- Geography.RevenuePerUser: a location with no users shows `$Infinity` or `$NaN` in the code; the model requires users > 0.
- Marketing.AvgConversionRate: an empty channel list shows `NaN%` in the code; the model requires at least one channel. Marketing.Summarize requires the same, so it does not describe the totals of an empty list (0 in the code).
- Revenue.RefundRate: a last month with zero net revenue shows `Infinity` or `NaN` in the code; the model requires non-zero net revenue.
- Revenue.AvgMonthlyGrowth: a first month with zero net revenue divides by zero in the code; the model requires a non-zero first month when there are two or more months.
- Heatmap.GetColor: a non-zero value with min = max (all rates equal) gives an `rgb(NaN, NaN, 254)` colour in the code; the model requires min != max for non-zero values.
- Heatmap.Legend: the legend of an empty heatmap (min = +Infinity, max = -Infinity) is not modelled; the model requires min != max unless min is 0.
- Heatmap.Extent: the +/-Infinity of `Math.min`/`Math.max` over no values is represented as None, not as values.
- Heatmap.MobileSummary: the day averages are computed on the reordered array, as in the code. That reordering does not change exact sums, but the model does not prove it.
- Marketing.AvgConversionRate, Revenue.RefundRate and Revenue.AvgMonthlyGrowth return the unrounded value; the one-decimal `toFixed(1)` figure the page shows is in `Marketing.Summarize` and `Revenue.Summarize`.
- Heatmap.BuildMatrix: days and hours are whole numbers in the model. A fractional `day` makes `heatmapMatrix[item.day]` undefined and the write throw (src/pages/MarketingPage.tsx:195), and a fractional `hour` writes a property that is not an array cell; neither is modelled.
- Heatmap.BuildMatrix: on the page the grid is filled from the array the mobile summary has sorted, so with two items in one (day, hour) the cell is `CellRate(Sort(data, RateOf), d, h)` (`Heatmap.ConversionHeatmap`), not the last item in fetched order. That the min and max of the colour scale are unaffected by the reordering is not proved.
