/** The handler's request and response shapes and their checks (dto.go). */
module Dto {
  import opened Wrappers
  import opened Decimal
  import opened Domain

  /** `ErrPrice`, the only validation failure. */
  datatype ValidationError = ErrPrice {
    function Message(): string { "price should be >=0" }
  }

  /** The body of a create request; dates are still MM-YYYY text. */
  datatype CreateSubscriptionRequest = CreateSubscriptionRequest(
    serviceName: string,
    price: Int32,
    userId: Uuid,
    startDate: string,
    endDate: Option<string>)
  {
    /** Only the price is checked: negative prices are refused, zero is accepted. */
    function Validate(): (e: Option<ValidationError>)
      ensures e.Some? <==> price < 0
      ensures e.Some? ==> e.value == ErrPrice
    {
      if price < 0 then Some(ErrPrice) else None
    }
  }

  /** Validation ignores every field but the price: name, user and dates are unconstrained, end before start included. */
  lemma CreateValidateOnlyPrice(a: CreateSubscriptionRequest, b: CreateSubscriptionRequest)
    requires a.price == b.price
    ensures a.Validate() == b.Validate()
  {
  }

  /** The body of a partial update; every field may be absent. */
  datatype UpdateSubscriptionRequest = UpdateSubscriptionRequest(
    serviceName: Option<string>,
    price: Option<int>,
    endDate: Option<string>)

  /** What running a check can end in, a nil dereference included. */
  datatype CheckOutcome = Accepted | Rejected(error: ValidationError) | NilDereference

  /** `UpdateSubscriptionRequest.Validate` as written: it reads the price without checking that one was sent. */
  function ValidateUpdateAsWritten(r: UpdateSubscriptionRequest): (o: CheckOutcome)
    ensures o == NilDereference <==> r.price.None?
    ensures o.Rejected? <==> r.price.Some? && r.price.value < 0
  {
    if r.price.None? then NilDereference
    else if r.price.value < 0 then Rejected(ErrPrice)
    else Accepted
  }

  /** A request that only renames the service makes the check dereference nil. */
  lemma UpdateValidatePanics()
    ensures ValidateUpdateAsWritten(UpdateSubscriptionRequest(Some("Netflix"), None, None)) == NilDereference
  {
  }

  /** The check as evidently intended: an absent price is fine, a present one must not be negative. */
  function ValidateUpdate(r: UpdateSubscriptionRequest): (e: Option<ValidationError>)
    ensures e.Some? <==> r.price.Some? && r.price.value < 0
  {
    if r.price.Some? && r.price.value < 0 then Some(ErrPrice) else None
  }

  /** Wherever the written check does not crash, the intended one gives the same verdict. */
  lemma ValidateUpdateAgrees(r: UpdateSubscriptionRequest)
    requires r.price.Some?
    ensures ValidateUpdateAsWritten(r) == (if ValidateUpdate(r).Some? then Rejected(ValidateUpdate(r).value) else Accepted)
  {
  }

  /** The JSON shape of a subscription; dates are MM-YYYY text, the creation time is the clock value. */
  datatype SubscriptionResponse = SubscriptionResponse(
    id: int,
    serviceName: string,
    price: int,
    userId: Uuid,
    startDate: string,
    endDate: Option<string>,
    createdAt: int)

  datatype TotalCostResponse = TotalCostResponse(totalCost: int, count: int)

  /** The response carries the total and the count unchanged. */
  function NewTotalCostResponse(totalCost: int, count: int): (r: TotalCostResponse)
    ensures r.totalCost == totalCost && r.count == count
  {
    TotalCostResponse(totalCost, count)
  }
}
