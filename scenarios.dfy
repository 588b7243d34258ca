/** The repository's integration scenarios (subscriptions_test.go), replayed on the model table. */
module Scenarios {
  import opened Wrappers
  import opened Calendar
  import opened Domain
  import opened GoErrors
  import opened SqlRows
  import opened UpdateStatement
  import opened CostQuery
  import opened Subscriptions
  import opened ErrorPath

  /** `createTestInput`: a subscription starting in January 2025, without end date. */
  function TestInput(name: string, price: int, user: Uuid): CreateSubscriptionInput {
    CreateSubscriptionInput(name, price, user, Date(2025, 1, 1), None)
  }

  /** Two creates for the same user get distinct ids. */
  method CreateTwice() returns (a: Subscription, b: Subscription)
    ensures a.id != b.id && a.userId == b.userId
    ensures a.serviceName == "Service1" && b.price == 200 && a.endDate.None?
  {
    var t := new SubscriptionTable();
    var r1 := t.CreateSubscription(TestInput("Service1", 100, 7), None);
    var r2 := t.CreateSubscription(TestInput("Service2", 200, 7), None);
    a, b := r1.value, r2.value;
  }

  /** A deleted subscription can no longer be read, and the reply is 404. */
  method DeleteThenGet() returns (deleteErr: Option<GoError>, got: Result<Subscription, GoError>)
    ensures deleteErr.None?
    ensures got == Err(RepoNotFound) && ReplyFor(got.error).status == 404
  {
    var t := new SubscriptionTable();
    var created := t.CreateSubscription(TestInput("ToDelete", 100, 1), None);
    var id := created.value.id;
    IndexOfUnique(t.rows, id, |t.rows| - 1);
    deleteErr := t.DeleteSubscription(id, None);
    got := t.GetSubscriptionByID(id, None);
  }

  /** Deleting one subscription keeps the other readable. */
  method DeleteKeepsOthers() returns (kept: Result<Subscription, GoError>)
    ensures kept.Ok? && kept.value.serviceName == "Keep"
  {
    var t := new SubscriptionTable();
    var sub1 := t.CreateSubscription(TestInput("Keep", 100, 1), None);
    var sub2 := t.CreateSubscription(TestInput("Delete", 200, 2), None);
    var keep := t.rows[0];
    assert keep.id == sub1.value.id && keep.serviceName == "Keep";
    ghost var before := t.rows;
    var err := t.DeleteSubscription(sub2.value.id, None);
    WithoutMembers(before, sub2.value.id);
    assert keep in t.rows;
    kept := t.GetSubscriptionByID(sub1.value.id, None);
    var k :| 0 <= k < |t.rows| && t.rows[k] == keep;
    IndexOfUnique(t.rows, keep.id, k);
  }

  /** An update without fields reads the current record back. */
  method UpdateNothing() returns (created: Subscription, updated: Result<Subscription, GoError>)
    ensures updated == Ok(created)
  {
    var t := new SubscriptionTable();
    var r := t.CreateSubscription(TestInput("Service", 100, 1), None);
    created := r.value;
    IndexOfUnique(t.rows, created.id, 0);
    updated := t.UpdateSubscription(created.id, UpdateSubscriptionInput(None, None, None), None);
  }

  /** Updating the price keeps the name. */
  method UpdatePrice() returns (updated: Result<Subscription, GoError>)
    ensures updated.Ok? && updated.value.price == 500 && updated.value.serviceName == "Service"
  {
    var t := new SubscriptionTable();
    var r := t.CreateSubscription(TestInput("Service", 100, 1), None);
    IndexOfUnique(t.rows, r.value.id, 0);
    updated := t.UpdateSubscription(r.value.id, UpdateSubscriptionInput(None, Some(500), None), None);
  }

  /** Updating an unknown id is not found, answered with 404, and changes nothing. */
  method UpdateUnknown() returns (updated: Result<Subscription, GoError>)
    ensures updated == Err(RepoNotFound) && ReplyFor(updated.error).status == 404
  {
    var t := new SubscriptionTable();
    updated := t.UpdateSubscription(99999, UpdateSubscriptionInput(Some("NewName"), None, None), None);
  }

  /** The most recently created subscription is listed first. */
  method ListNewestFirst() returns (first: Subscription, second: Subscription, listed: Result<seq<Subscription>, GoError>)
    ensures listed.Ok? && |listed.value| == 2
    ensures listed.value[0].id == second.id && listed.value[1].id == first.id
  {
    var t := new SubscriptionTable();
    var r1 := t.CreateSubscription(TestInput("First", 100, 1), None);
    var r2 := t.CreateSubscription(TestInput("Second", 200, 2), None);
    first, second := r1.value, r2.value;
    listed := t.ListSubscriptions(ListParams(10, 0), None);
  }

  /** The year 2025 as a cost period. */
  function Year2025(): CostFilter {
    CostFilter(Date(2025, 1, 1), Date(2025, 12, 1), None, None)
  }

  /** An empty table costs nothing and counts nothing. */
  method CostOfEmptyTable() returns (r: Result<TotalCostResult, GoError>)
    ensures r == Ok(TotalCostResult(0, 0))
  {
    var t := new SubscriptionTable();
    r := t.CalculateTotalCost(Year2025(), None);
  }

  /** Subscriptions starting in January and June 2025 both count toward 2025. */
  method CostForPeriod() returns (r: Result<TotalCostResult, GoError>)
    ensures r == Ok(TotalCostResult(300, 2))
  {
    var t := new SubscriptionTable();
    var a := t.CreateSubscription(CreateSubscriptionInput("Service1", 100, 1, Date(2025, 1, 1), None), None);
    var b := t.CreateSubscription(CreateSubscriptionInput("Service2", 200, 2, Date(2025, 6, 1), None), None);
    var rows := t.rows;
    MonthGranularity(rows[0], Year2025());
    MonthGranularity(rows[1], Year2025());
    assert rows[..1][..0] == [] && rows[..2] == rows;
    assert TotalCost(rows[..1], Year2025()) == TotalCostResult(100, 1);
    r := t.CalculateTotalCost(Year2025(), None);
  }

  /**
   * One subscription starts after 2025 and one ended in December 2024: neither
   * counts, only the one starting in June 2025 does.
   */
  method CostExcludesOutsidePeriod() returns (r: Result<TotalCostResult, GoError>)
    ensures r == Ok(TotalCostResult(300, 1))
  {
    var t := new SubscriptionTable();
    var a := t.CreateSubscription(CreateSubscriptionInput("Future", 100, 1, Date(2026, 1, 1), None), None);
    var b := t.CreateSubscription(CreateSubscriptionInput("Past", 200, 2, Date(2024, 1, 1), Some(Date(2024, 12, 1))), None);
    var c := t.CreateSubscription(CreateSubscriptionInput("InPeriod", 300, 3, Date(2025, 6, 1), None), None);
    var rows := t.rows;
    MonthGranularity(rows[0], Year2025());
    MonthGranularity(rows[1], Year2025());
    MonthGranularity(rows[2], Year2025());
    assert !Counts(rows[0], Year2025()) && !Counts(rows[1], Year2025()) && Counts(rows[2], Year2025());
    assert rows[..2][..1] == rows[..1] && rows[..1][..0] == [] && rows[..3] == rows;
    assert TotalCost(rows[..1], Year2025()) == TotalCostResult(0, 0);
    assert TotalCost(rows[..2], Year2025()) == TotalCostResult(0, 0);
    r := t.CalculateTotalCost(Year2025(), None);
  }
}
