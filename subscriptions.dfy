/**
 * The subscriptions table behind `PostgresRepository` (subscriptions.go).
 * Rows are kept in insertion order, which is ascending `created_at` order;
 * database and driver failures arrive as the `fault` parameter of each
 * operation.
 */
module Subscriptions {
  import opened Wrappers
  import opened Decimal
  import opened Domain
  import opened GoErrors
  import opened Repository
  import opened SqlRows
  import opened UpdateStatement
  import opened CostQuery

  /** Ids and creation times both strictly increase along the table. */
  predicate Ascending(rows: seq<Row>) {
    forall i, j :: 0 <= i < j < |rows| ==> rows[i].id < rows[j].id && rows[i].createdAt < rows[j].createdAt
  }

  /** Where the row with id `id` sits, if there is one. */
  function IndexOf(rows: seq<Row>, id: int): (k: Option<nat>)
    ensures k.Some? ==> k.value < |rows| && rows[k.value].id == id
    ensures k.None? <==> forall i :: 0 <= i < |rows| ==> rows[i].id != id
  {
    if rows == [] then None
    else if rows[|rows| - 1].id == id then Some(|rows| - 1)
    else
      var k := IndexOf(rows[..|rows| - 1], id);
      assert forall i :: 0 <= i < |rows| - 1 ==> rows[..|rows| - 1][i] == rows[i];
      k
  }

  /** With distinct ids, any row carrying `id` is the one `IndexOf` finds. */
  lemma IndexOfUnique(rows: seq<Row>, id: int, i: nat)
    requires Ascending(rows) && i < |rows| && rows[i].id == id
    ensures IndexOf(rows, id) == Some(i)
  {
  }

  /** The outcome of a select by id that reaches the database: the row, or no rows. */
  function Fetched(rows: seq<Row>, id: int): (r: Result<Subscription, GoError>)
    ensures r.Ok? <==> exists i :: 0 <= i < |rows| && rows[i].id == id
    ensures r.Ok? ==> exists i :: 0 <= i < |rows| && rows[i].id == id && r.value == ToDomain(rows[i])
    ensures r.Err? ==> r.error == RepoNotFound
  {
    match IndexOf(rows, id)
    case Some(k) => Ok(ToDomain(rows[k]))
    case None =>
      var err := HandleError(Some(NoRows));
      Err(err.value)
  }

  /** `ORDER BY created_at DESC` over an ascending table. */
  function NewestFirst(rows: seq<Row>): (r: seq<Row>)
    ensures |r| == |rows|
    ensures forall i :: 0 <= i < |rows| ==> r[i] == rows[|rows| - 1 - i]
  {
    if rows == [] then [] else [rows[|rows| - 1]] + NewestFirst(rows[..|rows| - 1])
  }

  lemma NewestFirstDescending(rows: seq<Row>)
    requires Ascending(rows)
    ensures var r := NewestFirst(rows);
      forall i, j :: 0 <= i < j < |r| ==> r[i].createdAt > r[j].createdAt
  {
  }

  /** `OFFSET offset LIMIT limit`: skip `offset` rows, keep at most `limit`. */
  function Page(rows: seq<Row>, offset: nat, limit: nat): (p: seq<Row>)
    ensures |p| == if offset >= |rows| then 0 else if limit < |rows| - offset then limit else |rows| - offset
    ensures forall i :: 0 <= i < |p| ==> p[i] == rows[offset + i]
  {
    if offset >= |rows| then []
    else if limit < |rows| - offset then rows[offset..offset + limit]
    else rows[offset..]
  }

  /** `WHERE user_id = $1`, in table order. */
  function OwnedBy(rows: seq<Row>, user: Uuid): (m: seq<Row>)
    ensures |m| <= |rows|
  {
    if rows == [] then []
    else OwnedBy(rows[..|rows| - 1], user) + if rows[|rows| - 1].userId == user then [rows[|rows| - 1]] else []
  }

  /** The user's rows are exactly the table's rows carrying that user id. */
  lemma {:induction false} OwnedByMembers(rows: seq<Row>, user: Uuid)
    ensures forall r :: r in OwnedBy(rows, user) <==> r in rows && r.userId == user
  {
    if rows != [] {
      var init := rows[..|rows| - 1];
      OwnedByMembers(init, user);
      assert rows == init + [rows[|rows| - 1]];
    }
  }

  /** Every row the user filter keeps carries that user id. */
  lemma {:induction false} OwnedByUser(rows: seq<Row>, user: Uuid)
    ensures forall i :: 0 <= i < |OwnedBy(rows, user)| ==> OwnedBy(rows, user)[i].userId == user
  {
    if rows != [] {
      var init, last := rows[..|rows| - 1], rows[|rows| - 1];
      var m0, m := OwnedBy(init, user), OwnedBy(rows, user);
      assert m == m0 + if rows[|rows| - 1].userId == user then [rows[|rows| - 1]] else [];
      OwnedByUser(init, user);
      assert forall i :: 0 <= i < |m0| ==> m[i] == m0[i];
      assert |m| > |m0| ==> m[|m0|] == last && last.userId == user;
    }
  }

  /** Rows all older than a bound stay so after the user filter. */
  lemma {:induction false} OwnedByBelow(rows: seq<Row>, user: Uuid, id: int, at: int)
    requires forall i :: 0 <= i < |rows| ==> rows[i].id < id && rows[i].createdAt < at
    ensures forall i :: 0 <= i < |OwnedBy(rows, user)| ==>
      OwnedBy(rows, user)[i].id < id && OwnedBy(rows, user)[i].createdAt < at
  {
    if rows != [] {
      var init := rows[..|rows| - 1];
      var m0, m := OwnedBy(init, user), OwnedBy(rows, user);
      assert m == m0 + if rows[|rows| - 1].userId == user then [rows[|rows| - 1]] else [];
      assert forall i :: 0 <= i < |init| ==> init[i] == rows[i];
      OwnedByBelow(init, user, id, at);
      assert forall i :: 0 <= i < |m0| ==> m[i] == m0[i];
      assert |m| > |m0| ==> m[|m0|] == rows[|rows| - 1];
    }
  }

  /** Keeping some rows keeps them in order. */
  lemma {:induction false} OwnedByAscending(rows: seq<Row>, user: Uuid)
    requires Ascending(rows)
    ensures Ascending(OwnedBy(rows, user))
  {
    if rows != [] {
      var init := rows[..|rows| - 1];
      var last := rows[|rows| - 1];
      assert forall i :: 0 <= i < |init| ==> init[i] == rows[i];
      var m0, m := OwnedBy(init, user), OwnedBy(rows, user);
      assert m == m0 + if rows[|rows| - 1].userId == user then [rows[|rows| - 1]] else [];
      OwnedByAscending(init, user);
      OwnedByBelow(init, user, last.id, last.createdAt);
      assert forall i :: 0 <= i < |m0| ==> m[i] == m0[i];
      assert |m| > |m0| ==> m[|m0|] == last;
    }
  }

  /** `DELETE ... WHERE id = $1`: every row but the one with that id, in table order. */
  function Without(rows: seq<Row>, id: int): (w: seq<Row>)
    ensures |w| <= |rows|
  {
    if rows == [] then []
    else Without(rows[..|rows| - 1], id) + if rows[|rows| - 1].id != id then [rows[|rows| - 1]] else []
  }

  /** The remaining rows are exactly the table's rows with another id. */
  lemma {:induction false} WithoutMembers(rows: seq<Row>, id: int)
    ensures forall r :: r in Without(rows, id) <==> r in rows && r.id != id
  {
    if rows != [] {
      var init := rows[..|rows| - 1];
      WithoutMembers(init, id);
      assert rows == init + [rows[|rows| - 1]];
    }
  }

  /** Rows all older than a bound stay so after a delete. */
  lemma {:induction false} WithoutBelow(rows: seq<Row>, id: int, bound: int, at: int)
    requires forall i :: 0 <= i < |rows| ==> rows[i].id < bound && rows[i].createdAt < at
    ensures forall i :: 0 <= i < |Without(rows, id)| ==>
      Without(rows, id)[i].id < bound && Without(rows, id)[i].createdAt < at
  {
    if rows != [] {
      var init := rows[..|rows| - 1];
      var w0, w := Without(init, id), Without(rows, id);
      assert w == w0 + if rows[|rows| - 1].id != id then [rows[|rows| - 1]] else [];
      assert forall i :: 0 <= i < |init| ==> init[i] == rows[i];
      WithoutBelow(init, id, bound, at);
      assert forall i :: 0 <= i < |w0| ==> w[i] == w0[i];
      assert |w| > |w0| ==> w[|w0|] == rows[|rows| - 1];
    }
  }

  lemma {:induction false} WithoutAscending(rows: seq<Row>, id: int)
    requires Ascending(rows)
    ensures Ascending(Without(rows, id))
  {
    if rows != [] {
      var init := rows[..|rows| - 1];
      var last := rows[|rows| - 1];
      var w0, w := Without(init, id), Without(rows, id);
      assert w == w0 + if last.id != id then [last] else [];
      assert forall i :: 0 <= i < |init| ==> init[i] == rows[i];
      WithoutAscending(init, id);
      WithoutBelow(init, id, last.id, last.createdAt);
      assert forall i :: 0 <= i < |w0| ==> w[i] == w0[i];
      assert |w| > |w0| ==> w[|w0|] == last;
    }
  }

  /** A delete that matches no row leaves the table as it was. */
  lemma {:induction false} WithoutNothing(rows: seq<Row>, id: int)
    requires forall i :: 0 <= i < |rows| ==> rows[i].id != id
    ensures Without(rows, id) == rows
  {
    if rows != [] {
      var init := rows[..|rows| - 1];
      WithoutNothing(init, id);
      assert init + [rows[|rows| - 1]] == rows;
    }
  }

  /** With distinct ids, a delete that finds its row removes exactly that one. */
  lemma {:induction false} WithoutRemovesOne(rows: seq<Row>, id: int)
    requires Ascending(rows) && IndexOf(rows, id).Some?
    ensures |Without(rows, id)| == |rows| - 1
  {
    var init := rows[..|rows| - 1];
    var last := rows[|rows| - 1];
    if last.id == id {
      assert forall i :: 0 <= i < |init| ==> init[i].id < last.id;
      WithoutNothing(init, id);
    } else {
      WithoutRemovesOne(init, id);
    }
  }

  /** The created row echoes the input in every column the input names. */
  predicate Echoes(s: Subscription, input: CreateSubscriptionInput) {
    && s.serviceName == input.serviceName && s.price == input.price && s.userId == input.userId
    && s.startDate == input.startDate && s.endDate == input.endDate
  }

  /**
   * The table: its rows in insertion order, the next value of the id
   * sequence and a logical clock standing in for `now()`.
   */
  class SubscriptionTable {
    var rows: seq<Row>
    var nextId: int
    var clock: int

    ghost predicate Valid()
      reads this
    {
      && 1 <= nextId
      && (forall i :: 0 <= i < |rows| ==> 1 <= rows[i].id < nextId && rows[i].createdAt < clock)
      && Ascending(rows)
    }

    constructor ()
      ensures Valid() && rows == []
    {
      rows := [];
      nextId := 1;
      clock := 0;
    }

    /** `INSERT ... RETURNING`: a fresh id and a creation time later than every existing row's. */
    method CreateSubscription(input: CreateSubscriptionInput, fault: Option<GoError>) returns (r: Result<Subscription, GoError>)
      requires Valid()
      requires MinInt32 <= input.price <= MaxInt32
      modifies this
      ensures Valid()
      ensures fault.Some? ==> rows == old(rows) && r == Err(HandleError(fault).value)
      ensures fault.None? ==> r.Ok? && |rows| == |old(rows)| + 1 && rows[..|old(rows)|] == old(rows) && r.value == ToDomain(rows[|old(rows)|])
      ensures fault.None? ==> Echoes(r.value, input) && r.value.id >= 1
      ensures fault.None? ==> forall i :: 0 <= i < |old(rows)| ==>
        old(rows)[i].id < r.value.id && old(rows)[i].createdAt < r.value.createdAt
    {
      if fault.Some? {
        r := Err(HandleError(fault).value);
        return;
      }
      var row := Row(nextId, input.serviceName, input.price, input.userId, input.startDate, input.endDate, clock);
      rows := rows + [row];
      nextId := nextId + 1;
      clock := clock + 1;
      r := Ok(ToDomain(row));
    }

    /** `SELECT ... WHERE id = $1`. */
    method GetSubscriptionByID(id: int, fault: Option<GoError>) returns (r: Result<Subscription, GoError>)
      ensures fault.Some? ==> r == Err(HandleError(fault).value)
      ensures fault.None? ==> r == Fetched(rows, id)
    {
      var found := IndexOf(rows, id);
      var err := if fault.Some? then fault else if found.None? then Some(NoRows) else None;
      if err.Some? {
        r := Err(HandleError(err).value);
      } else {
        r := Ok(ToDomain(rows[found.value]));
      }
    }

    /** The result loop of both list operations: each row converted in place. */
    static method ToDomainAll(results: seq<Row>) returns (subs: seq<Subscription>)
      ensures |subs| == |results|
      ensures forall i :: 0 <= i < |results| ==> subs[i] == ToDomain(results[i])
    {
      var a := new Subscription[|results|];
      for i := 0 to |results|
        invariant forall j :: 0 <= j < i ==> a[j] == ToDomain(results[j])
      {
        a[i] := ToDomain(results[i]);
      }
      subs := a[..];
    }

    /** Postgres refuses a negative LIMIT or OFFSET. */
    static function WindowError(params: ListParams): (e: Option<GoError>)
      ensures e.None? <==> params.limit >= 0 && params.offset >= 0
    {
      if params.limit < 0 then Some(DriverFailure("2201W"))
      else if params.offset < 0 then Some(DriverFailure("2201X"))
      else None
    }

    /** `SELECT ... ORDER BY created_at DESC LIMIT $1 OFFSET $2`. */
    method ListSubscriptions(params: ListParams, fault: Option<GoError>) returns (r: Result<seq<Subscription>, GoError>)
      requires Valid()
      ensures r.Err? <==> fault.Some? || params.limit < 0 || params.offset < 0
      ensures fault.Some? ==> r == Err(HandleError(fault).value)
      ensures fault.None? && r.Err? ==> r.error == RepoInternal
      ensures r.Ok? ==> |r.value| == |Page(NewestFirst(rows), params.offset, params.limit)| <= params.limit
      ensures r.Ok? ==> forall i :: 0 <= i < |r.value| ==> r.value[i] == ToDomain(NewestFirst(rows)[params.offset + i])
      ensures r.Ok? ==> forall i, j :: 0 <= i < j < |r.value| ==> r.value[i].createdAt > r.value[j].createdAt
    {
      var err := if fault.Some? then fault else WindowError(params);
      if err.Some? {
        r := Err(HandleError(err).value);
        return;
      }
      var results := Page(NewestFirst(rows), params.offset, params.limit);
      var subs := ToDomainAll(results);
      NewestFirstDescending(rows);
      r := Ok(subs);
    }

    /** `SELECT ... WHERE user_id = $1 ORDER BY created_at DESC LIMIT $2 OFFSET $3`. */
    method ListSubscriptionsByUserID(user: Uuid, params: ListParams, fault: Option<GoError>) returns (r: Result<seq<Subscription>, GoError>)
      requires Valid()
      ensures r.Err? <==> fault.Some? || params.limit < 0 || params.offset < 0
      ensures fault.Some? ==> r == Err(HandleError(fault).value)
      ensures fault.None? && r.Err? ==> r.error == RepoInternal
      ensures r.Ok? ==> |r.value| == |Page(NewestFirst(OwnedBy(rows, user)), params.offset, params.limit)| <= params.limit
      ensures r.Ok? ==> forall i :: 0 <= i < |r.value| ==> r.value[i] == ToDomain(NewestFirst(OwnedBy(rows, user))[params.offset + i])
      ensures r.Ok? ==> forall i :: 0 <= i < |r.value| ==> r.value[i].userId == user
      ensures r.Ok? ==> forall i, j :: 0 <= i < j < |r.value| ==> r.value[i].createdAt > r.value[j].createdAt
    {
      var err := if fault.Some? then fault else WindowError(params);
      if err.Some? {
        r := Err(HandleError(err).value);
        return;
      }
      var owned := OwnedBy(rows, user);
      var results := Page(NewestFirst(owned), params.offset, params.limit);
      var subs := ToDomainAll(results);
      OwnedByAscending(rows, user);
      OwnedByUser(rows, user);
      NewestFirstDescending(owned);
      r := Ok(subs);
    }

    /**
     * `UpdateSubscription`: no supplied field reads the row instead; otherwise
     * the built UPDATE runs, and a price the `int4` column cannot hold is
     * refused by the driver before the statement is sent.
     */
    method UpdateSubscription(id: int, input: UpdateSubscriptionInput, fault: Option<GoError>) returns (r: Result<Subscription, GoError>)
      requires Valid()
      modifies this
      ensures Valid() && nextId == old(nextId) && clock == old(clock)
      ensures input.IsEmpty() ==> rows == old(rows)
      ensures input.IsEmpty() && fault.Some? ==> r == Err(HandleError(fault).value)
      ensures input.IsEmpty() && fault.None? ==> r == Fetched(rows, id)
      ensures !input.IsEmpty() && fault.Some? ==> rows == old(rows) && r == Err(HandleError(fault).value)
      ensures !input.IsEmpty() && fault.None? && !PriceFits(input) ==> rows == old(rows) && r == Err(RepoInternal)
      ensures !input.IsEmpty() && fault.None? && PriceFits(input) && IndexOf(old(rows), id).None? ==>
        rows == old(rows) && r == Err(RepoNotFound)
      ensures !input.IsEmpty() && fault.None? && PriceFits(input) && IndexOf(old(rows), id).Some? ==>
        var k := IndexOf(old(rows), id).value;
        rows == old(rows)[k := ApplyUpdate(old(rows)[k], input)] && r == Ok(ToDomain(rows[k]))
    {
      var q := BuildUpdateQuery(id, input);
      if q.None? {
        r := GetSubscriptionByID(id, fault);
        return;
      }
      var query := q.value;
      var found := IndexOf(rows, id);
      var err: Option<GoError> := None;
      if fault.Some? {
        err := fault;
      } else if !Bound(query.setParts, query.args) {
        err := Some(DriverFailure("int4 encode"));
      } else if found.None? {
        err := Some(NoRows);
      }
      BuiltBound(input, id, query);
      if err.Some? {
        r := Err(HandleError(err).value);
        return;
      }
      var k := found.value;
      BuiltUpdateEffect(rows[k], input, id, query);
      var updated := Exec(rows[k], query.setParts, query.args);
      rows := rows[k := updated];
      r := Ok(ToDomain(updated));
    }

    /** `DELETE ... WHERE id = $1`; no affected row is reported as not found. */
    method DeleteSubscription(id: int, fault: Option<GoError>) returns (err: Option<GoError>)
      requires Valid()
      modifies this
      ensures Valid() && nextId == old(nextId) && clock == old(clock)
      ensures fault.Some? ==> rows == old(rows) && err == HandleError(fault)
      ensures fault.None? ==> rows == Without(old(rows), id)
      ensures fault.None? ==> (err.None? <==> IndexOf(old(rows), id).Some?)
      ensures fault.None? && err.Some? ==> err.value == RepoNotFound && rows == old(rows)
      ensures fault.None? && err.None? ==> |rows| == |old(rows)| - 1
    {
      if fault.Some? {
        err := HandleError(fault);
        return;
      }
      var before := |rows|;
      WithoutAscending(rows, id);
      WithoutMembers(rows, id);
      if IndexOf(rows, id).Some? {
        WithoutRemovesOne(rows, id);
      } else {
        WithoutNothing(rows, id);
      }
      rows := Without(rows, id);
      var rowsAffected := before - |rows|;
      if rowsAffected == 0 {
        err := Some(RepoNotFound);
      } else {
        err := None;
      }
    }

    /** The cost statement built for `filter`, run over the table. */
    method CalculateTotalCost(filter: CostFilter, fault: Option<GoError>) returns (r: Result<TotalCostResult, GoError>)
      ensures fault.Some? ==> r == Err(HandleError(fault).value)
      ensures fault.None? ==> r == Ok(TotalCost(rows, filter))
    {
      var q := BuildCostQuery(filter);
      if fault.Some? {
        r := Err(HandleError(fault).value);
        return;
      }
      AggregateIsTotalCost(rows, filter, q);
      r := Ok(Aggregate(rows, q));
    }
  }
}
