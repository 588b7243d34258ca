/**
 * The subscriptions table's row type, the values bound to `$n` placeholders,
 * and the `column = $n` fragments the repository assembles (subscriptions.go).
 */
module SqlRows {
  import opened Wrappers
  import opened Decimal
  import opened Calendar
  import opened Domain

  /** A row as the query layer returns it; `price` is an `int4` column. */
  datatype Row = Row(
    id: int,
    serviceName: string,
    price: Int32,
    userId: Uuid,
    startDate: CalendarDate,
    endDate: Option<CalendarDate>,
    createdAt: int)

  /** `toDomain`: a field-by-field copy that widens the price to Go's `int`. */
  function ToDomain(r: Row): (s: Subscription)
    ensures s.id == r.id && s.serviceName == r.serviceName && s.price == r.price && s.userId == r.userId
    ensures s.startDate == r.startDate && s.endDate == r.endDate && s.createdAt == r.createdAt
  {
    Subscription(r.id, r.serviceName, r.price, r.userId, r.startDate, r.endDate, r.createdAt)
  }

  /** The copy loses nothing: distinct rows give distinct records. */
  lemma ToDomainInjective(a: Row, b: Row)
    requires ToDomain(a) == ToDomain(b)
    ensures a == b
  {
  }

  /** A value bound to a placeholder. */
  datatype Arg = TextArg(text: string) | IntArg(n: int) | DateArg(date: CalendarDate) | UuidArg(uuid: Uuid)

  /** The columns a statement fragment can name. */
  datatype Column = ServiceNameColumn | PriceColumn | EndDateColumn | UserIdColumn

  function ColumnName(c: Column): string {
    match c
    case ServiceNameColumn => "service_name"
    case PriceColumn => "price"
    case EndDateColumn => "end_date"
    case UserIdColumn => "user_id"
  }

  /** `fmt.Sprintf("<column> = $%d", placeholder)`, kept as its two parts. */
  datatype Assignment = Assignment(column: Column, placeholder: nat) {
    function Text(): string {
      ColumnName(column) + " = $" + Digits(placeholder)
    }
  }

  /** A column's value in a row, in the form it is bound (an absent end date is SQL NULL). */
  function ColumnValue(r: Row, c: Column): (v: Option<Arg>)
    ensures v.Some? ==> Fits(c, v.value)
  {
    match c
    case ServiceNameColumn => Some(TextArg(r.serviceName))
    case PriceColumn => Some(IntArg(r.price))
    case EndDateColumn => if r.endDate.Some? then Some(DateArg(r.endDate.value)) else None
    case UserIdColumn => Some(UuidArg(r.userId))
  }

  /** Some fragment names column `c`. */
  predicate Names(parts: seq<Assignment>, c: Column) {
    exists k :: 0 <= k < |parts| && parts[k].column == c
  }

  /** Postgres accepts a bound value for a column only when it converts to the column's type. */
  predicate Fits(c: Column, v: Arg) {
    match c
    case ServiceNameColumn => v.TextArg?
    case PriceColumn => v.IntArg? && MinInt32 <= v.n <= MaxInt32
    case EndDateColumn => v.DateArg?
    case UserIdColumn => v.UuidArg?
  }

  /**
   * Postgres accepts a SET list with its bound values: every fragment names a
   * bound placeholder whose value fits its column, and no column is assigned
   * twice (a repeated column is refused with SQLSTATE 42601).
   */
  predicate Bound(parts: seq<Assignment>, args: seq<Arg>) {
    && (forall k {:trigger parts[k]} :: 0 <= k < |parts| ==>
         1 <= parts[k].placeholder <= |args| && Fits(parts[k].column, args[parts[k].placeholder - 1]))
    && (forall k, l :: 0 <= k < l < |parts| ==> parts[k].column != parts[l].column)
  }

  /** `strings.Join(texts, sep)` over the fragments' texts. */
  function JoinTexts(parts: seq<Assignment>, sep: string): string {
    if parts == [] then ""
    else if |parts| == 1 then parts[0].Text()
    else parts[0].Text() + sep + JoinTexts(parts[1..], sep)
  }
}
