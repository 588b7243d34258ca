/**
 * `CalculateTotalCost` (subscriptions.go): which rows count toward a period's
 * cost, the sum and count over them, and the statement the repository
 * assembles to ask Postgres for that sum and count.
 */
module CostQuery {
  import opened Wrappers
  import opened Calendar
  import opened Domain
  import opened SqlRows

  /** The inclusive bound on start dates: `EndPeriod.AddDate(0, 1, -1)`. */
  function EndBound(f: CostFilter): (b: CalendarDate)
    ensures f.endPeriod.day == 1 ==> b == Date(f.endPeriod.year, f.endPeriod.month, DaysIn(f.endPeriod.year, f.endPeriod.month))
    ensures f.endPeriod.day == 1 && f.endPeriod.month == 2 ==> b.day == if IsLeapYear(f.endPeriod.year) then 29 else 28
  {
    if f.endPeriod.day == 1 then
      EndOfMonth(f.endPeriod);
      AddDate(f.endPeriod, 0, 1, -1)
    else AddDate(f.endPeriod, 0, 1, -1)
  }

  /**
   * A row counts toward the cost when it starts no later than the end bound,
   * has not ended before the start of the period, and matches the optional
   * user and service filters.
   */
  predicate Counts(r: Row, f: CostFilter) {
    && LessEq(r.startDate, EndBound(f))
    && (r.endDate.None? || LessEq(f.startPeriod, r.endDate.value))
    && (f.userId.None? || r.userId == f.userId.value)
    && (f.serviceName.None? || r.serviceName == f.serviceName.value)
  }

  /**
   * `COALESCE(SUM(price), 0), COUNT(*)` over the counted rows, as Postgres
   * accumulates it row by row. No counted row gives (0, 0), not an error.
   */
  function TotalCost(rows: seq<Row>, f: CostFilter): (r: TotalCostResult)
    ensures 0 <= r.count <= |rows|
    ensures r.count == 0 ==> r.totalCost == 0
    ensures (forall i :: 0 <= i < |rows| ==> !Counts(rows[i], f)) ==> r == TotalCostResult(0, 0)
  {
    if rows == [] then TotalCostResult(0, 0)
    else
      var init := rows[..|rows| - 1];
      var last := rows[|rows| - 1];
      assert forall i :: 0 <= i < |init| ==> init[i] == rows[i];
      var t := TotalCost(init, f);
      if Counts(last, f) then TotalCostResult(t.totalCost + last.price, t.count + 1) else t
  }

  /** The counted rows, in table order. */
  function Matching(rows: seq<Row>, f: CostFilter): (m: seq<Row>)
    ensures |m| <= |rows|
    ensures forall r :: r in m <==> r in rows && Counts(r, f)
  {
    if rows == [] then []
    else
      var init := rows[..|rows| - 1];
      var last := rows[|rows| - 1];
      assert rows == init + [last];
      Matching(init, f) + if Counts(last, f) then [last] else []
  }

  /** Each counted row is kept as often as it occurs, and no other row is kept. */
  lemma {:induction false} MatchingMultiplicity(rows: seq<Row>, f: CostFilter)
    ensures forall r :: multiset(Matching(rows, f))[r] == if Counts(r, f) then multiset(rows)[r] else 0
  {
    if rows != [] {
      var init := rows[..|rows| - 1];
      var last := rows[|rows| - 1];
      MatchingMultiplicity(init, f);
      assert rows == init + [last];
      assert multiset(rows) == multiset(init) + multiset{last};
      var m0 := Matching(init, f);
      var tail := if Counts(last, f) then [last] else [];
      assert Matching(rows, f) == m0 + tail;
      assert multiset(m0 + tail) == multiset(m0) + multiset(tail);
    }
  }

  function SumPrices(rows: seq<Row>): int {
    if rows == [] then 0 else SumPrices(rows[..|rows| - 1]) + rows[|rows| - 1].price
  }

  lemma {:induction false} SumPricesAppend(rows: seq<Row>, extra: seq<Row>)
    ensures SumPrices(rows + extra) == SumPrices(rows) + SumPrices(extra)
    decreases |extra|
  {
    if extra == [] {
      assert rows + extra == rows;
    } else {
      var init := extra[..|extra| - 1];
      assert (rows + extra)[..|rows + extra| - 1] == rows + init;
      assert (rows + extra)[|rows + extra| - 1] == extra[|extra| - 1];
      SumPricesAppend(rows, init);
    }
  }

  /** The aggregate is the sum of the counted prices and the number of counted rows. */
  lemma {:induction false} TotalCostIsSumOfMatching(rows: seq<Row>, f: CostFilter)
    ensures TotalCost(rows, f) == TotalCostResult(SumPrices(Matching(rows, f)), |Matching(rows, f)|)
  {
    if rows != [] {
      var init := rows[..|rows| - 1];
      var last := rows[|rows| - 1];
      TotalCostIsSumOfMatching(init, f);
      SumPricesAppend(Matching(init, f), if Counts(last, f) then [last] else []);
    }
  }

  /** `g` keeps `f`'s period and every filter `f` has, and may add more. */
  predicate Narrows(g: CostFilter, f: CostFilter) {
    && g.startPeriod == f.startPeriod && g.endPeriod == f.endPeriod
    && (f.userId.Some? ==> g.userId == f.userId)
    && (f.serviceName.Some? ==> g.serviceName == f.serviceName)
  }

  /** Adding filters never counts more rows, and never adds cost when prices are non-negative. */
  lemma {:induction false} NarrowingShrinks(rows: seq<Row>, g: CostFilter, f: CostFilter)
    requires Narrows(g, f)
    ensures TotalCost(rows, g).count <= TotalCost(rows, f).count
    ensures (forall i :: 0 <= i < |rows| ==> rows[i].price >= 0) ==> TotalCost(rows, g).totalCost <= TotalCost(rows, f).totalCost
  {
    if rows != [] {
      var init := rows[..|rows| - 1];
      assert forall i :: 0 <= i < |init| ==> init[i] == rows[i];
      NarrowingShrinks(init, g, f);
    }
  }

  lemma {:induction false} MatchingAppend(a: seq<Row>, b: seq<Row>, f: CostFilter)
    ensures Matching(a + b, f) == Matching(a, f) + Matching(b, f)
    decreases |b|
  {
    if b == [] {
      assert a + b == a;
    } else {
      var init := b[..|b| - 1];
      var last := b[|b| - 1];
      assert (a + b)[..|a + b| - 1] == a + init;
      assert (a + b)[|a + b| - 1] == last;
      MatchingAppend(a, init, f);
    }
  }

  /** Both filters together count exactly the rows that pass the user filter and then the service filter. */
  lemma {:induction false} FiltersCombine(rows: seq<Row>, both: CostFilter)
    ensures var byUser := both.(serviceName := None);
      var byService := both.(userId := None);
      Matching(rows, both) == Matching(Matching(rows, byUser), byService)
  {
    if rows != [] {
      var byUser := both.(serviceName := None);
      var byService := both.(userId := None);
      var init := rows[..|rows| - 1];
      var last := rows[|rows| - 1];
      FiltersCombine(init, both);
      var extra := if Counts(last, byUser) then [last] else [];
      MatchingAppend(Matching(init, byUser), extra, byService);
      if Counts(last, byUser) {
        assert Matching(extra, byService) == Matching([], byService) + if Counts(last, byService) then [last] else [];
      }
    }
  }

  /**
   * With first-of-month period bounds (as the MM-YYYY codec produces), the
   * day-level test is a comparison of months: a row counts when it starts in
   * or before the end month and has no end or ends in or after the start month.
   */
  lemma MonthGranularity(r: Row, f: CostFilter)
    requires f.startPeriod.day == 1 && f.endPeriod.day == 1
    ensures Counts(r, f) <==>
      && MonthIndex(r.startDate) <= MonthIndex(f.endPeriod)
      && (r.endDate.None? || MonthIndex(f.startPeriod) <= MonthIndex(r.endDate.value))
      && (f.userId.None? || r.userId == f.userId.value)
      && (f.serviceName.None? || r.serviceName == f.serviceName.value)
  {
    LessEqMonthEnd(r.startDate, EndBound(f));
    if r.endDate.Some? {
      MonthStartLessEq(f.startPeriod, r.endDate.value);
    }
  }

  /** The optional filter value for a column, as it is bound. */
  function Filtered(f: CostFilter, c: Column): Option<Arg> {
    match c
    case UserIdColumn => if f.userId.Some? then Some(UuidArg(f.userId.value)) else None
    case ServiceNameColumn => if f.serviceName.Some? then Some(TextArg(f.serviceName.value)) else None
    case _ => None
  }

  /** The order in which the builder appends the optional conditions. */
  function FilterRank(c: Column): nat {
    match c
    case UserIdColumn => 0
    case ServiceNameColumn => 1
    case _ => 2
  }

  /**
   * The cost statement: the fixed base condition on `$1` (end bound) and
   * `$2` (period start), followed by the optional ` AND column = $n` conditions.
   */
  datatype CostQuery = CostQuery(conditions: seq<Assignment>, args: seq<Arg>) {
    /** The statement text, with each optional condition appended as `query +=` does. */
    function Text(): string {
      "\n\t\tSELECT COALESCE(SUM(price), 0)::BIGINT AS total_cost, COUNT(*)::BIGINT AS count\n\t\tFROM subscriptions\n\t\tWHERE start_date <= $1\n\t\t  AND (end_date IS NULL OR end_date >= $2)\n\t"
        + AndTexts(conditions)
    }
  }

  function AndTexts(conditions: seq<Assignment>): string {
    if conditions == [] then ""
    else AndTexts(conditions[..|conditions| - 1]) + " AND " + conditions[|conditions| - 1].Text()
  }

  /**
   * What the builder guarantees: `$1` binds the end bound and `$2` the period
   * start; then one condition per given filter, user before service,
   * numbered from `$3` and bound to the filter's value.
   */
  ghost predicate CostBuiltFor(f: CostFilter, q: CostQuery) {
    var conds := q.conditions;
    && |q.args| == |conds| + 2
    && q.args[0] == DateArg(EndBound(f))
    && q.args[1] == DateArg(f.startPeriod)
    && (forall k {:trigger conds[k]} :: 0 <= k < |conds| ==> conds[k].placeholder == k + 3 && Filtered(f, conds[k].column) == Some(q.args[k + 2]))
    && (forall k, l :: 0 <= k < l < |conds| ==> FilterRank(conds[k].column) < FilterRank(conds[l].column))
    && (f.userId.Some? ==> Names(conds, UserIdColumn))
    && (f.serviceName.Some? ==> Names(conds, ServiceNameColumn))
  }

  /** The base args, then each given filter appended with the next placeholder. */
  method BuildCostQuery(f: CostFilter) returns (q: CostQuery)
    ensures CostBuiltFor(f, q)
  {
    var endPeriod := AddDate(f.endPeriod, 0, 1, -1);
    var conditions: seq<Assignment> := [];
    var args: seq<Arg> := [DateArg(endPeriod), DateArg(f.startPeriod)];
    var argIndex: nat := 3;

    if f.userId.Some? {
      conditions := conditions + [Assignment(UserIdColumn, argIndex)];
      args := args + [UuidArg(f.userId.value)];
      argIndex := argIndex + 1;
    }
    assert |conditions| == |args| - 2 == argIndex - 3;
    assert f.userId.Some? ==> conditions[0] == Assignment(UserIdColumn, 3) && args[2] == UuidArg(f.userId.value);

    if f.serviceName.Some? {
      conditions := conditions + [Assignment(ServiceNameColumn, argIndex)];
      args := args + [TextArg(f.serviceName.value)];
      assert conditions[|conditions| - 1].column == ServiceNameColumn;
      assert f.userId.Some? ==> conditions[0].column == UserIdColumn;
    }
    q := CostQuery(conditions, args);
  }

  /** The bound values have the shapes the statement compares them as. */
  predicate Executable(q: CostQuery) {
    && |q.args| >= 2 && q.args[0].DateArg? && q.args[1].DateArg?
    && forall k {:trigger q.conditions[k]} :: 0 <= k < |q.conditions| ==> 1 <= q.conditions[k].placeholder <= |q.args|
  }

  /** Postgres evaluating the statement's WHERE clause on one row (a NULL column equals nothing). */
  predicate Where(r: Row, q: CostQuery)
    requires Executable(q)
  {
    && LessEq(r.startDate, q.args[0].date)
    && (r.endDate.None? || LessEq(q.args[1].date, r.endDate.value))
    && forall k {:trigger q.conditions[k]} :: 0 <= k < |q.conditions| ==>
         ColumnValue(r, q.conditions[k].column) == Some(q.args[q.conditions[k].placeholder - 1])
  }

  /** Postgres computing the two aggregates over the rows the WHERE clause keeps. */
  function Aggregate(rows: seq<Row>, q: CostQuery): (t: TotalCostResult)
    requires Executable(q)
    ensures 0 <= t.count <= |rows|
    ensures t.count == 0 ==> t.totalCost == 0
  {
    if rows == [] then TotalCostResult(0, 0)
    else
      var t := Aggregate(rows[..|rows| - 1], q);
      var last := rows[|rows| - 1];
      if Where(last, q) then TotalCostResult(t.totalCost + last.price, t.count + 1) else t
  }

  /** The built statement's WHERE clause keeps exactly the rows that count. */
  lemma BuiltCostWhere(r: Row, f: CostFilter, q: CostQuery)
    requires CostBuiltFor(f, q)
    ensures Executable(q)
    ensures Where(r, q) <==> Counts(r, f)
  {
    var conds := q.conditions;
    assert Executable(q) by {
      forall k | 0 <= k < |conds| ensures 1 <= conds[k].placeholder <= |q.args| {
      }
    }
    if Counts(r, f) {
      forall k | 0 <= k < |conds|
        ensures ColumnValue(r, conds[k].column) == Some(q.args[conds[k].placeholder - 1])
      {
        assert Filtered(f, conds[k].column) == Some(q.args[k + 2]);
      }
    }
    if Where(r, q) {
      if f.userId.Some? {
        var k :| 0 <= k < |conds| && conds[k].column == UserIdColumn;
        assert ColumnValue(r, conds[k].column) == Some(q.args[conds[k].placeholder - 1]);
      }
      if f.serviceName.Some? {
        var k :| 0 <= k < |conds| && conds[k].column == ServiceNameColumn;
        assert ColumnValue(r, conds[k].column) == Some(q.args[conds[k].placeholder - 1]);
      }
    }
  }

  /** Executing the built statement yields the total cost of the counted rows. */
  lemma {:induction false} AggregateIsTotalCost(rows: seq<Row>, f: CostFilter, q: CostQuery)
    requires CostBuiltFor(f, q)
    ensures Executable(q)
    ensures Aggregate(rows, q) == TotalCost(rows, f)
  {
    BuiltCostWhere(if rows == [] then Row(0, [], 0, 0, Date(1970, 1, 1), None, 0) else rows[|rows| - 1], f, q);
    if rows != [] {
      AggregateIsTotalCost(rows[..|rows| - 1], f, q);
    }
  }
}
