/** The handler's helpers (helpers.go): pagination, response building, error replies. */
module Helpers {
  import opened Wrappers
  import opened Decimal
  import opened Calendar
  import opened Domain
  import opened GoErrors
  import opened MonthYear
  import opened Dto

  /**
   * `parsePagination`: both query values are read with `strconv.ParseInt(_, 10, 32)`
   * and the error is dropped, so missing or malformed text counts as 0. The
   * limit then defaults to 10 and is capped at 100; a negative offset becomes 0.
   */
  method ParsePagination(limitText: string, offsetText: string) returns (p: ListParams)
    ensures 1 <= p.limit <= 100 && 0 <= p.offset
    ensures var l := ParseInt32(limitText).value;
      && (l <= 0 ==> p.limit == 10)
      && (l > 100 ==> p.limit == 100)
      && (1 <= l <= 100 ==> p.limit == l)
    ensures var o := ParseInt32(offsetText).value;
      && (o < 0 ==> p.offset == 0)
      && (0 <= o ==> p.offset == o)
    ensures ParseInt32(limitText).err == Some(ErrSyntax) ==> p.limit == 10
    ensures ParseInt32(offsetText).err == Some(ErrSyntax) ==> p.offset == 0
  {
    var limit := ParseInt32(limitText).value;
    var offset := ParseInt32(offsetText).value;

    if limit <= 0 {
      limit := 10;
    }
    if limit > 100 {
      limit := 100;
    }
    if offset < 0 {
      offset := 0;
    }
    p := ListParams(limit, offset);
  }

  /** An absent query value is the empty string, which does not parse. */
  lemma MissingParameter()
    ensures ParseInt32("") == Parsed(0, Some(ErrSyntax))
  {
  }

  /** Digit texts for a limit in 1..100 and any 32-bit offset reach the list query unchanged. */
  method PaginationFromDigits(limitText: string, offsetText: string) returns (p: ListParams)
    requires limitText != [] && AllDigits(limitText) && 1 <= Value(limitText) <= 100
    requires offsetText != [] && AllDigits(offsetText) && Value(offsetText) <= MaxInt32
    ensures p == ListParams(Value(limitText), Value(offsetText))
  {
    ParseAllDigits(limitText);
    ParseAllDigits(offsetText);
    p := ParsePagination(limitText, offsetText);
  }

  /** `toSubscriptionResponse`: the fields copied, both dates rendered as MM-YYYY, the end date only when there is one. */
  function ToSubscriptionResponse(sub: Subscription): (resp: SubscriptionResponse)
    ensures resp.id == sub.id && resp.serviceName == sub.serviceName && resp.price == sub.price
    ensures resp.userId == sub.userId && resp.createdAt == sub.createdAt
    ensures resp.endDate.Some? <==> sub.endDate.Some?
  {
    var end := if sub.endDate.Some? then Some(Format(sub.endDate.value)) else None;
    SubscriptionResponse(sub.id, sub.serviceName, sub.price, sub.userId, Format(sub.startDate), end, sub.createdAt)
  }

  /** A client parsing the response's dates gets back the subscription's months. */
  lemma ResponseDatesRoundTrip(sub: Subscription)
    requires 0 <= sub.startDate.year <= 9999
    requires sub.endDate.Some? ==> 0 <= sub.endDate.value.year <= 9999
    ensures var resp := ToSubscriptionResponse(sub);
      && Parse(resp.startDate) == Ok(FirstOfMonth(sub.startDate))
      && (sub.endDate.Some? ==> Parse(resp.endDate.value) == Ok(FirstOfMonth(sub.endDate.value)))
  {
    ParseFormat(sub.startDate);
    if sub.endDate.Some? {
      ParseFormat(sub.endDate.value);
    }
  }

  /** `toSubscriptionListResponse`: one response per subscription, in the same order. */
  method ToSubscriptionListResponse(subs: seq<Subscription>) returns (result: seq<SubscriptionResponse>)
    ensures |result| == |subs|
    ensures forall i :: 0 <= i < |subs| ==> result[i] == ToSubscriptionResponse(subs[i])
  {
    var a := new SubscriptionResponse[|subs|];
    for i := 0 to |subs|
      invariant forall j :: 0 <= j < i ==> a[j] == ToSubscriptionResponse(subs[j])
    {
      var resp := ToSubscriptionResponse(subs[i]);
      a[i] := resp;
    }
    result := a[..];
  }

  /** The status and message `respondError` sends. */
  datatype ErrorReply = ErrorReply(status: int, message: string)

  /** `handleBusinessError`: 404 for the business not-found error (however wrapped), 500 for anything else. */
  function HandleBusinessError(err: GoError): (r: ErrorReply)
    ensures r.status == 404 || r.status == 500
    ensures r.status == 404 <==> Root(err) == BizNotFound
    ensures r.message == if r.status == 404 then "subscription not found" else "internal error"
  {
    IsSentinel(err, BizNotFound);
    if Is(err, BizNotFound) then ErrorReply(404, "subscription not found")
    else ErrorReply(500, "internal error")
  }
}
