/**
 * The partial update of `UpdateSubscription` (subscriptions.go): the SET
 * clause builder and what the resulting statement does to a row.
 */
module UpdateStatement {
  import opened Wrappers
  import opened Decimal
  import opened Calendar
  import opened Domain
  import opened SqlRows

  /** The value the input supplies for a column, as it is bound; only three columns are updatable. */
  function Supplied(input: UpdateSubscriptionInput, c: Column): Option<Arg> {
    match c
    case ServiceNameColumn => if input.serviceName.Some? then Some(TextArg(input.serviceName.value)) else None
    case PriceColumn => if input.price.Some? then Some(IntArg(input.price.value)) else None
    case EndDateColumn => if input.endDate.Some? then Some(DateArg(input.endDate.value)) else None
    case UserIdColumn => None
  }

  /** The fixed order in which the builder considers the columns. */
  function Rank(c: Column): nat {
    match c
    case ServiceNameColumn => 0
    case PriceColumn => 1
    case EndDateColumn => 2
    case UserIdColumn => 3
  }

  predicate PriceFits(input: UpdateSubscriptionInput) {
    input.price.None? || MinInt32 <= input.price.value <= MaxInt32
  }

  /**
   * The intended effect of a partial update: each supplied field takes the
   * supplied value, every other column keeps its value.
   */
  function ApplyUpdate(r: Row, input: UpdateSubscriptionInput): (u: Row)
    requires PriceFits(input)
    ensures u.id == r.id && u.userId == r.userId && u.startDate == r.startDate && u.createdAt == r.createdAt
    ensures r.endDate.Some? ==> u.endDate.Some?
    ensures input.IsEmpty() ==> u == r
  {
    r.(serviceName := if input.serviceName.Some? then input.serviceName.value else r.serviceName,
       price := if input.price.Some? then input.price.value else r.price,
       endDate := if input.endDate.Some? then input.endDate else r.endDate)
  }

  /** A prepared UPDATE: its SET fragments, its bound values and the placeholder that binds the id. */
  datatype UpdateQuery = UpdateQuery(setParts: seq<Assignment>, args: seq<Arg>, whereIndex: nat) {
    /** The statement text the repository sends, as `fmt.Sprintf` assembles it. */
    function Text(): string {
      "\n\t\tUPDATE subscriptions\n\t\tSET " + JoinTexts(setParts, ", ")
        + "\n\t\tWHERE id = $" + Digits(whereIndex)
        + "\n\t\tRETURNING id, service_name, price, user_id, start_date, end_date, created_at\n\t"
    }
  }

  /**
   * Fragments numbered $1..$n, each binding the value the input supplies for
   * its column, in strictly increasing column order.
   */
  ghost predicate SuppliedInOrder(input: UpdateSubscriptionInput, parts: seq<Assignment>, args: seq<Arg>) {
    && |args| >= |parts|
    && (forall k {:trigger parts[k]} :: 0 <= k < |parts| ==> parts[k].placeholder == k + 1 && Supplied(input, parts[k].column) == Some(args[k]))
    && (forall k, l :: 0 <= k < l < |parts| ==> Rank(parts[k].column) < Rank(parts[l].column))
  }

  /**
   * What the builder guarantees of its result: one fragment per supplied
   * field, in the fixed column order, numbered $1..$n, each bound to the
   * supplied value; the id bound last, to $(n+1).
   */
  ghost predicate BuiltFor(input: UpdateSubscriptionInput, id: int, q: UpdateQuery) {
    var n := |q.setParts|;
    && |q.args| == n + 1
    && q.whereIndex == n + 1
    && q.args[n] == IntArg(id)
    && SuppliedInOrder(input, q.setParts, q.args)
    && (input.serviceName.Some? ==> Names(q.setParts, ServiceNameColumn))
    && (input.price.Some? ==> Names(q.setParts, PriceColumn))
    && (input.endDate.Some? ==> Names(q.setParts, EndDateColumn))
  }

  /** The fragments after the builder's first step (the service name). */
  ghost function NameParts(input: UpdateSubscriptionInput): seq<Assignment> {
    if input.serviceName.Some? then [Assignment(ServiceNameColumn, 1)] else []
  }

  /** The fragments after the second step (the price). */
  ghost function PriceParts(input: UpdateSubscriptionInput): seq<Assignment> {
    var a := NameParts(input);
    if input.price.Some? then a + [Assignment(PriceColumn, |a| + 1)] else a
  }

  /** The fragments after the third step (the end date), written as one expression for proofs. */
  ghost function StepParts(input: UpdateSubscriptionInput): seq<Assignment> {
    var b := PriceParts(input);
    if input.endDate.Some? then b + [Assignment(EndDateColumn, |b| + 1)] else b
  }

  ghost function NameArgs(input: UpdateSubscriptionInput): seq<Arg> {
    if input.serviceName.Some? then [TextArg(input.serviceName.value)] else []
  }

  ghost function PriceArgs(input: UpdateSubscriptionInput): seq<Arg> {
    if input.price.Some? then NameArgs(input) + [IntArg(input.price.value)] else NameArgs(input)
  }

  /** The values the builder's three steps bind, likewise. */
  ghost function StepArgs(input: UpdateSubscriptionInput): seq<Arg> {
    if input.endDate.Some? then PriceArgs(input) + [DateArg(input.endDate.value)] else PriceArgs(input)
  }

  /** The three steps number and bind the fragments in column order. */
  lemma StepsInOrder(input: UpdateSubscriptionInput, parts: seq<Assignment>, args: seq<Arg>)
    requires parts == StepParts(input) && args == StepArgs(input)
    ensures |parts| == |args|
    ensures SuppliedInOrder(input, parts, args)
  {
    forall k | 0 <= k < |parts|
      ensures parts[k].placeholder == k + 1 && Supplied(input, parts[k].column) == Some(args[k])
    {
    }
    forall k, l | 0 <= k < l < |parts|
      ensures Rank(parts[k].column) < Rank(parts[l].column)
    {
    }
  }

  /** The three steps leave out no supplied field. */
  lemma StepsCover(input: UpdateSubscriptionInput, parts: seq<Assignment>)
    requires parts == StepParts(input)
    ensures input.serviceName.Some? ==> Names(parts, ServiceNameColumn)
    ensures input.price.Some? ==> Names(parts, PriceColumn)
    ensures input.endDate.Some? ==> Names(parts, EndDateColumn)
  {
    if input.serviceName.Some? {
      assert parts[0].column == ServiceNameColumn;
    }
    var a := if input.serviceName.Some? then 1 else 0;
    if input.price.Some? {
      assert parts[a].column == PriceColumn;
    }
    var b := if input.price.Some? then a + 1 else a;
    if input.endDate.Some? {
      assert parts[b].column == EndDateColumn;
    }
  }

  /** The three steps followed by binding the id meet the builder's promises. */
  lemma StepsBuild(input: UpdateSubscriptionInput, id: int, parts: seq<Assignment>, args: seq<Arg>)
    requires parts == StepParts(input) && args == StepArgs(input) + [IntArg(id)]
    ensures BuiltFor(input, id, UpdateQuery(parts, args, |parts| + 1))
  {
    StepsInOrder(input, parts, StepArgs(input));
    StepsCover(input, parts);
    assert args[..|parts|] == StepArgs(input);
  }

  /**
   * The SET-clause builder of `UpdateSubscription`. No supplied field gives
   * no statement (the caller then reads the current row instead).
   */
  method BuildUpdateQuery(id: int, input: UpdateSubscriptionInput) returns (q: Option<UpdateQuery>)
    ensures q.None? <==> input.IsEmpty()
    ensures q.Some? ==> BuiltFor(input, id, q.value)
  {
    var setParts: seq<Assignment> := [];
    var args: seq<Arg> := [];
    var argIndex: nat := 1;

    if input.serviceName.Some? {
      setParts := setParts + [Assignment(ServiceNameColumn, argIndex)];
      args := args + [TextArg(input.serviceName.value)];
      argIndex := argIndex + 1;
    }
    assert setParts == NameParts(input) && args == NameArgs(input) && argIndex == |setParts| + 1;
    if input.price.Some? {
      setParts := setParts + [Assignment(PriceColumn, argIndex)];
      args := args + [IntArg(input.price.value)];
      argIndex := argIndex + 1;
    }
    assert setParts == PriceParts(input) && args == PriceArgs(input) && argIndex == |setParts| + 1;
    if input.endDate.Some? {
      setParts := setParts + [Assignment(EndDateColumn, argIndex)];
      args := args + [DateArg(input.endDate.value)];
      argIndex := argIndex + 1;
    }
    assert setParts == StepParts(input) && args == StepArgs(input) && argIndex == |setParts| + 1;

    if |setParts| == 0 {
      return None;
    }
    args := args + [IntArg(id)];
    StepsBuild(input, id, setParts, args);
    q := Some(UpdateQuery(setParts, args, argIndex));
  }

  /** Rows agreeing on id, start, creation time and every column value are the same row. */
  lemma RowsEqual(a: Row, b: Row)
    requires a.id == b.id && a.startDate == b.startDate && a.createdAt == b.createdAt
    requires forall c :: ColumnValue(a, c) == ColumnValue(b, c)
    ensures a == b
  {
    assert ColumnValue(a, ServiceNameColumn) == ColumnValue(b, ServiceNameColumn);
    assert ColumnValue(a, PriceColumn) == ColumnValue(b, PriceColumn);
    assert ColumnValue(a, EndDateColumn) == ColumnValue(b, EndDateColumn);
    assert ColumnValue(a, UserIdColumn) == ColumnValue(b, UserIdColumn);
  }

  /** Assigning one fragment's bound value to a row. */
  function Assign(r: Row, a: Assignment, args: seq<Arg>): Row
    requires 1 <= a.placeholder <= |args| && Fits(a.column, args[a.placeholder - 1])
  {
    var v := args[a.placeholder - 1];
    match a.column
    case ServiceNameColumn => r.(serviceName := v.text)
    case PriceColumn => r.(price := v.n)
    case EndDateColumn => r.(endDate := Some(v.date))
    case UserIdColumn => r.(userId := v.uuid)
  }

  lemma BoundPrefix(parts: seq<Assignment>, args: seq<Arg>)
    requires Bound(parts, args) && parts != []
    ensures Bound(parts[..|parts| - 1], args)
  {
    var init := parts[..|parts| - 1];
    assert forall k :: 0 <= k < |init| ==> init[k] == parts[k];
  }

  /** Postgres executing `SET f1, ..., fn` on one row: the fragments take effect left to right. */
  function Exec(r: Row, parts: seq<Assignment>, args: seq<Arg>): (e: Row)
    requires Bound(parts, args)
    ensures e.id == r.id && e.startDate == r.startDate && e.createdAt == r.createdAt
    ensures parts == [] ==> e == r
  {
    if parts == [] then r
    else
      BoundPrefix(parts, args);
      Assign(Exec(r, parts[..|parts| - 1], args), parts[|parts| - 1], args)
  }

  /** The value the fragment naming `c` binds, if a fragment names it. */
  function Assigned(parts: seq<Assignment>, args: seq<Arg>, c: Column): (v: Option<Arg>)
    requires Bound(parts, args)
    ensures v.Some? ==> Fits(c, v.value)
  {
    if parts == [] then None
    else if parts[|parts| - 1].column == c then Some(args[parts[|parts| - 1].placeholder - 1])
    else
      BoundPrefix(parts, args);
      Assigned(parts[..|parts| - 1], args, c)
  }

  /** Each column ends up holding what the fragment naming it binds; unnamed columns keep their values. */
  lemma {:induction false} ExecAssigned(r: Row, parts: seq<Assignment>, args: seq<Arg>, c: Column)
    requires Bound(parts, args)
    ensures var u := Exec(r, parts, args);
      && u.id == r.id && u.startDate == r.startDate && u.createdAt == r.createdAt
      && ColumnValue(u, c) == if Assigned(parts, args, c).Some? then Assigned(parts, args, c) else ColumnValue(r, c)
  {
    if parts != [] {
      BoundPrefix(parts, args);
      ExecAssigned(r, parts[..|parts| - 1], args, c);
    }
  }

  /** The fragment naming `c`, at position `k`, decides `c`. */
  lemma {:induction false} AssignedAt(parts: seq<Assignment>, args: seq<Arg>, c: Column, k: nat)
    requires Bound(parts, args) && k < |parts| && parts[k].column == c
    ensures Assigned(parts, args, c) == Some(args[parts[k].placeholder - 1])
  {
    var n := |parts|;
    if k < n - 1 {
      BoundPrefix(parts, args);
      AssignedAt(parts[..n - 1], args, c, k);
    }
  }

  /** With no fragment naming `c`, `c` is left alone. */
  lemma {:induction false} AssignedNone(parts: seq<Assignment>, args: seq<Arg>, c: Column)
    requires Bound(parts, args)
    requires forall l :: 0 <= l < |parts| ==> parts[l].column != c
    ensures Assigned(parts, args, c) == None
  {
    if parts != [] {
      BoundPrefix(parts, args);
      AssignedNone(parts[..|parts| - 1], args, c);
    }
  }

  /** In a built statement, each column is assigned exactly what the input supplies for it. */
  lemma BuiltAssigns(input: UpdateSubscriptionInput, id: int, q: UpdateQuery, c: Column)
    requires BuiltFor(input, id, q) && Bound(q.setParts, q.args)
    ensures Assigned(q.setParts, q.args, c) == Supplied(input, c)
  {
    var parts := q.setParts;
    if Supplied(input, c).Some? {
      assert c != UserIdColumn;
      assert Names(parts, c);
      var k :| 0 <= k < |parts| && parts[k].column == c;
      AssignedAt(parts, q.args, c, k);
      assert parts[k].placeholder - 1 == k;
    } else {
      forall l | 0 <= l < |parts| ensures parts[l].column != c {
        assert Supplied(input, parts[l].column).Some?;
      }
      AssignedNone(parts, q.args, c);
    }
  }

  /** The built statement can be executed exactly when the supplied price fits the `int4` column. */
  lemma BuiltBound(input: UpdateSubscriptionInput, id: int, q: UpdateQuery)
    requires BuiltFor(input, id, q)
    ensures Bound(q.setParts, q.args) <==> PriceFits(input)
  {
    if !PriceFits(input) {
      assert Supplied(input, PriceColumn).Some?;
      assert Names(q.setParts, PriceColumn);
      var k :| 0 <= k < |q.setParts| && q.setParts[k].column == PriceColumn;
      assert !Fits(q.setParts[k].column, q.args[q.setParts[k].placeholder - 1]);
    }
  }

  /** Executed on a row, the built statement performs the intended partial update. */
  lemma BuiltUpdateEffect(r: Row, input: UpdateSubscriptionInput, id: int, q: UpdateQuery)
    requires BuiltFor(input, id, q) && PriceFits(input)
    ensures Bound(q.setParts, q.args)
    ensures Exec(r, q.setParts, q.args) == ApplyUpdate(r, input)
  {
    BuiltBound(input, id, q);
    var u := Exec(r, q.setParts, q.args);
    forall c ensures ColumnValue(u, c) == ColumnValue(ApplyUpdate(r, input), c) {
      BuiltAssigns(input, id, q, c);
      ExecAssigned(r, q.setParts, q.args, c);
    }
    ExecAssigned(r, q.setParts, q.args, PriceColumn);
    RowsEqual(u, ApplyUpdate(r, input));
  }
}
