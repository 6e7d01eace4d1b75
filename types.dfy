/** The record shapes the analytics pages receive from the data layer. */
module Types {

  /** One month of the revenue series. Amounts are whole currency units. */
  datatype RevenueRecord = RevenueRecord(
    month: string,
    starter: int,
    pro: int,
    enterprise: int,
    netRevenue: int,
    refunds: int)

  /** One acquisition channel; `conversionRate` is a percentage. */
  datatype MarketingRecord = MarketingRecord(
    source: string,
    visitors: nat,
    trials: nat,
    paid: nat,
    conversionRate: real)

  /** One location; `users` is a head count. */
  datatype GeoRecord = GeoRecord(
    city: string,
    country: string,
    revenue: int,
    users: nat,
    lat: real,
    lng: real)

  /** One (day, hour) bucket of the conversion heatmap. Day and hour are not
      constrained by the type: the heatmap code guards against values out of
      range, so the model must be able to express them. */
  datatype HeatmapCell = HeatmapCell(hour: int, day: int, conversionRate: real)

  datatype Option<+T> = None | Some(value: T)
}
