/** The service's record types (package `domain`). */
module Domain {
  import opened Wrappers
  import opened Decimal
  import opened Calendar

  /** A user identifier: a 128-bit UUID, compared only for equality. */
  type Uuid = bv128

  /**
   * A subscription as the rest of the service sees it. The start date is
   * always there; an absent end date means the subscription is open-ended.
   * `createdAt` is the value of the table's logical clock when the row was made.
   */
  datatype Subscription = Subscription(
    id: int,
    serviceName: string,
    price: int,
    userId: Uuid,
    startDate: CalendarDate,
    endDate: Option<CalendarDate>,
    createdAt: int)

  datatype CreateSubscriptionInput = CreateSubscriptionInput(
    serviceName: string,
    price: int,
    userId: Uuid,
    startDate: CalendarDate,
    endDate: Option<CalendarDate>)

  /** A partial update: only these three columns can change, each only when given. */
  datatype UpdateSubscriptionInput = UpdateSubscriptionInput(
    serviceName: Option<string>,
    price: Option<int>,
    endDate: Option<CalendarDate>)
  {
    predicate IsEmpty() { serviceName.None? && price.None? && endDate.None? }
  }

  datatype ListParams = ListParams(limit: Int32, offset: Int32)

  /** Both period bounds are required; user and service are optional equality filters. */
  datatype CostFilter = CostFilter(
    startPeriod: CalendarDate,
    endPeriod: CalendarDate,
    userId: Option<Uuid>,
    serviceName: Option<string>)

  datatype TotalCostResult = TotalCostResult(totalCost: int, count: int)
}
