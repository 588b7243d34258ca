# Subscription service core, modelled in Dafny

This project models the core of a small Go CRUD service for user subscriptions. The service stores subscriptions in Postgres and reports their total cost over a period of months. The model covers these parts:

- **The repository** (`internal/repository/postgres`). The subscriptions table is the class `Subscriptions.SubscriptionTable`, with create, get, list, list-by-user, partial update, delete and total cost.
  - The update's SET-clause builder and the cost query's condition builder are methods that build their fragments and bound values step by step, as the Go code does.
  - Postgres executing a built statement is modelled too: `UpdateStatement.Exec` applies a SET clause to a row, and `CostQuery.Where` with `CostQuery.Aggregate` evaluate the cost statement.
  - The lemmas then connect what the statements do with what the service intends: `ApplyUpdate` for updates, `Counts` and `TotalCost` for cost.
  - `handleError` sorts driver errors into context errors, not-found and internal.
- **The use-case error mapping** (`internal/business/errors.go`), from repository errors to business errors.
- **The HTTP helpers** (`internal/delivery/http`):
  - pagination clamping, on top of a model of `strconv.ParseInt(s, 10, 32)`;
  - response building;
  - the 404/500 decision;
  - request validation;
  - the `MM-YYYY` month codec (`time.Parse`/`Format` with layout `"01-2006"`), with its round trips.
- **Calendar dates** (`Calendar`). Dates have the Gregorian leap rule and Go's `AddDate` normalisation. So "the last day of the end month" (`AddDate(0, 1, -1)`) is a function whose value is proved.

Files, one module each:

- `wrappers.dfy`: `Option` and `Result`.
- `decimal.dfy`: digit strings and `ParseInt`.
- `calendar.dfy`: dates.
- `domain.dfy`: records.
- `month_year.dfy`: the MM-YYYY codec.
- `errors.dfy`: Go errors, `%w` wrapping and `errors.Is`.
- `repository.dfy`: `handleError`.
- `business.dfy`: `mapError`.
- `sql_rows.dfy`: rows, bound values and `column = $n` fragments.
- `update_statement.dfy`: the UPDATE builder and its execution.
- `cost_query.dfy`: the cost rule, the cost statement and its execution.
- `subscriptions.dfy`: the table.
- `dto.dfy`: request validation and response shapes.
- `helpers.dfy`: handler helpers.
- `error_path.dfy`: the error chain end to end.
- `scenarios.dfy`: the repository's integration tests replayed on the model.

Database and driver failures that the code cannot see coming are a `fault: Option<GoError>` parameter of each table operation. `created_at` is a logical clock that increases with every insert.

## Model

| member | source | states |
|---|---|---|
| Subscriptions.SubscriptionTable.constructor | internal/repository/postgres/subscriptions.go:14-32 | An empty table satisfies the table invariant: ids in [1, nextId), created_at below the clock, and ids and created_at strictly increasing. |
| Subscriptions.SubscriptionTable.CreateSubscription | internal/repository/postgres/subscriptions.go:15-32 | Without a fault, exactly one row is appended. The returned record echoes the input (name, price, user, start, and an end only if one was given). Its id is at least 1 and larger than every existing id. Its created_at is later than every existing row's. A fault leaves the table unchanged and returns handleError's result. The invariant is kept. |
| Subscriptions.SubscriptionTable.GetSubscriptionByID | internal/repository/postgres/subscriptions.go:35-46 | Without a fault the result is `Fetched`: the stored record converted by toDomain when a row has that id, otherwise ErrNotFound. With a fault it is handleError of the fault. |
| Subscriptions.Fetched | internal/repository/postgres/subscriptions.go:39-45 | Ok exactly when some row carries the id, and then the value is that stored row converted by toDomain. Every failure is ErrNotFound ("no rows" passed through handleError). |
| Subscriptions.SubscriptionTable.ListSubscriptions | internal/repository/postgres/subscriptions.go:49-68 | It fails exactly when there is a fault or a negative limit or offset; a negative window is ErrInternal. On success, element i is the converted row at position offset+i of the newest-first order. There are at most limit elements, and created_at strictly decreases along the result. |
| Subscriptions.SubscriptionTable.ListSubscriptionsByUserID | internal/repository/postgres/subscriptions.go:71-91 | The same window over the user's rows only. Every returned record has that user id, and created_at strictly decreases. |
| Subscriptions.SubscriptionTable.ToDomainAll | internal/repository/postgres/subscriptions.go:62-65 | The result loop keeps length and order: element i is toDomain of result i. |
| Subscriptions.SubscriptionTable.WindowError | internal/repository/postgres/subscriptions.go:53-56 | Postgres refuses the statement exactly when LIMIT or OFFSET is negative. |
| Subscriptions.SubscriptionTable.UpdateSubscription | internal/repository/postgres/subscriptions.go:94-149 | No supplied field: the table is unchanged and the result is the same as a get. Otherwise, the first failure in this order decides and leaves the table unchanged: a fault (handleError), a price outside int4 (ErrInternal), an unknown id (ErrNotFound). If none applies, exactly the row with that id becomes `ApplyUpdate` of it, and that record is returned. The invariant, nextId and the clock are kept. |
| Subscriptions.SubscriptionTable.DeleteSubscription | internal/repository/postgres/subscriptions.go:152-167 | Without a fault the table becomes `Without(old, id)`. The result is nil exactly when the id existed, and then exactly one row is gone. Otherwise it is ErrNotFound and the table is unchanged. A fault returns handleError and changes nothing. |
| Subscriptions.SubscriptionTable.CalculateTotalCost | internal/repository/postgres/subscriptions.go:170-205 | Without a fault the result is `TotalCost(rows, filter)`. It is reached by running the statement `BuildCostQuery` builds and applying `AggregateIsTotalCost`. |
| Subscriptions.IndexOf | internal/repository/postgres/subscriptions.go:39 | Finds a row with the id, or none exists. |
| Subscriptions.IndexOfUnique | internal/repository/postgres/subscriptions.go:39 | With strictly increasing ids, the row with an id is the one IndexOf finds. |
| Subscriptions.NewestFirst | internal/repository/postgres/subscriptions.go:53-56 | Same length; element i is row \|rows\|-1-i, i.e. newest first over an ascending table. |
| Subscriptions.NewestFirstDescending | internal/repository/postgres/subscriptions.go:53-56 | Over an ascending table, newest-first order strictly decreases in created_at. |
| Subscriptions.Page | internal/repository/postgres/subscriptions.go:53-56 | LIMIT/OFFSET: the length is min(limit, max(0, n - offset)), and element i is row offset+i. |
| Subscriptions.OwnedBy | internal/repository/postgres/subscriptions.go:75-79 | `WHERE user_id = $1` keeps no more rows than the table has; OwnedByMembers and OwnedByUser state which rows. |
| Subscriptions.OwnedByMembers | internal/repository/postgres/subscriptions.go:75-79 | The user's rows are exactly the table's rows with that user id. |
| Subscriptions.OwnedByUser | internal/repository/postgres/subscriptions.go:75-79 | Every row the user filter keeps carries that user id. |
| Subscriptions.OwnedByAscending | internal/repository/postgres/subscriptions.go:75-79 | Selecting a user's rows keeps them in ascending order. |
| Subscriptions.Without | internal/repository/postgres/subscriptions.go:156 | `DELETE ... WHERE id = $1` leaves no more rows than there were; WithoutMembers and WithoutRemovesOne state which rows. |
| Subscriptions.WithoutMembers | internal/repository/postgres/subscriptions.go:156 | After a delete, the remaining rows are exactly the rows with another id. |
| Subscriptions.WithoutAscending | internal/repository/postgres/subscriptions.go:156 | A delete keeps the remaining rows in order. |
| Subscriptions.WithoutNothing | internal/repository/postgres/subscriptions.go:156-164 | A delete that matches no row leaves the table as it was. |
| Subscriptions.WithoutRemovesOne | internal/repository/postgres/subscriptions.go:156-166 | With distinct ids, a delete that finds its row removes exactly one row. |
| SqlRows.ToDomain | internal/repository/postgres/subscriptions.go:208-218 | toDomain copies all seven fields (id, name, price, user, start, optional end, created_at), widening the price to int. |
| SqlRows.ToDomainInjective | internal/repository/postgres/subscriptions.go:208-218 | The copy loses nothing: distinct rows give distinct records. |
| UpdateStatement.ApplyUpdate | internal/repository/postgres/subscriptions.go:102-118 | The intended partial update keeps id, user, start and created_at. An end date is never cleared. An empty input changes nothing. |
| UpdateStatement.BuildUpdateQuery | internal/repository/postgres/subscriptions.go:98-131 | The result is none exactly when no field is supplied. Otherwise there is one fragment per supplied field, in the order service_name, price, end_date. The placeholders are $1..$n, each bound to the supplied value, and the id is bound last, to $(n+1). |
| UpdateStatement.StepsInOrder | internal/repository/postgres/subscriptions.go:102-118 | The three append steps number the fragments $1..$n in column order, each bound to its supplied value. |
| UpdateStatement.StepsCover | internal/repository/postgres/subscriptions.go:102-118 | The three steps leave out no supplied field. |
| UpdateStatement.StepsBuild | internal/repository/postgres/subscriptions.go:102-124 | The three steps followed by appending the id meet everything BuildUpdateQuery promises. |
| UpdateStatement.BuiltBound | internal/repository/postgres/subscriptions.go:108-111 | A built statement is accepted exactly when the supplied price fits int4. Accepted means every bound value fits its column and no column is assigned twice. |
| UpdateStatement.BuiltUpdateEffect | internal/repository/postgres/subscriptions.go:126-142 | Executing a built statement on a row gives exactly `ApplyUpdate` of the row. |
| UpdateStatement.BuiltAssigns | internal/repository/postgres/subscriptions.go:98-131 | In a built statement, each column is assigned exactly what the input supplies for it, and an unsupplied column is assigned nothing. |
| UpdateStatement.Exec | internal/repository/postgres/subscriptions.go:126-131 | Executing a SET list never changes id, start_date or created_at, and an empty list changes nothing. |
| UpdateStatement.ExecAssigned | internal/repository/postgres/subscriptions.go:126-131 | Executing an accepted `SET f1, ..., fn` (no column twice) leaves id, start and created_at alone. Each column ends up with the value the fragment naming it binds, or keeps its value. |
| UpdateStatement.AssignedAt | internal/repository/postgres/subscriptions.go:126-131 | In an accepted SET list, the fragment naming a column decides that column's value. |
| UpdateStatement.AssignedNone | internal/repository/postgres/subscriptions.go:126-131 | A column named by no fragment is not assigned. |
| UpdateStatement.RowsEqual | internal/repository/postgres/subscriptions.go:133-142 | Rows agreeing on id, start, created_at and every column value are equal. |
| CostQuery.BuildCostQuery | internal/repository/postgres/subscriptions.go:175-196 | $1 is bound to the end bound and $2 to the period start. Then comes one condition per given filter, user before service, numbered from $3 and bound to the filter value. |
| CostQuery.BuiltCostWhere | internal/repository/postgres/subscriptions.go:178-196 | The built statement's WHERE clause, evaluated condition by condition as Postgres does (`Where`), keeps a row exactly when `Counts` holds for it. |
| CostQuery.Aggregate | internal/repository/postgres/subscriptions.go:179 | Postgres's COALESCE(SUM), COUNT over the kept rows: the count is at most the number of rows, and a count of 0 comes with a total of 0. |
| CostQuery.AggregateIsTotalCost | internal/repository/postgres/subscriptions.go:178-199 | Running the built statement gives `TotalCost` of the table. |
| CostQuery.TotalCost | internal/repository/postgres/subscriptions.go:179 | COALESCE(SUM), COUNT: 0 <= count <= number of rows. A count of 0 gives a total of 0. No counted row gives (0, 0) rather than an error. |
| CostQuery.Matching | internal/repository/postgres/subscriptions.go:181-196 | The counted rows are exactly the table's rows satisfying `Counts`, and there are no more of them than rows. |
| CostQuery.MatchingMultiplicity | internal/repository/postgres/subscriptions.go:181-196 | A row that counts is kept as many times as it occurs in the table; a row that does not count is never kept. |
| CostQuery.TotalCostIsSumOfMatching | internal/repository/postgres/subscriptions.go:179-182 | The total is the sum of the counted prices, and the count is the number of counted rows. |
| CostQuery.NarrowingShrinks | internal/repository/postgres/subscriptions.go:187-196 | Adding filters never raises the count. With non-negative prices it never raises the total. |
| CostQuery.FiltersCombine | internal/repository/postgres/subscriptions.go:187-196 | Filtering by user and service together keeps the same rows as filtering by user, then by service. |
| CostQuery.MatchingAppend | internal/repository/postgres/subscriptions.go:181-196 | The filter distributes over concatenation of tables. |
| CostQuery.EndBound | internal/repository/postgres/subscriptions.go:175 | For a first-of-month end period, the bound `endPeriod.AddDate(0, 1, -1)` is the last day of that month, and 29 or 28 in February by the leap rule. |
| CostQuery.MonthGranularity | internal/repository/postgres/subscriptions.go:174-196 | This is what the predicate `Counts` (the WHERE conditions of calculateTotalCost) means. With first-of-month period bounds, a row counts exactly when it starts in or before the end month and has no end or ends in or after the start month, with the optional filters. |
| Calendar.Normalize | internal/repository/postgres/subscriptions.go:175 | time.Date normalisation: a day within the carried month keeps that month (month index y*12 + m-1) and that day; day 0 is the last day of the month before. |
| Calendar.AddDaysWithinMonth | internal/repository/postgres/subscriptions.go:175 | Counting days forward without leaving the month moves only the day. |
| Calendar.AddDate | internal/repository/postgres/subscriptions.go:175 | Shifting the first of a month by years and months lands on the first of the shifted month; a zero shift changes nothing. |
| Calendar.EndOfMonth | internal/repository/postgres/subscriptions.go:175 | `AddDate(0, 1, -1)` of a first-of-month date is that month's last day, leap Februaries included. |
| Calendar.LessEqMonthEnd | internal/repository/postgres/subscriptions.go:181 | Against a month's last day, "on or before" is a comparison of months. |
| Calendar.MonthStartLessEq | internal/repository/postgres/subscriptions.go:182 | Against a month's first day, "on or after" is a comparison of months. |
| Calendar.DaysIn | internal/repository/postgres/subscriptions.go:175 | The month lengths are 28..31, and 29 holds exactly for a leap February. |
| Repository.HandleError | internal/repository/postgres/repository.go:39-50 | nil stays nil. A deadline or cancellation, even wrapped, comes back unchanged. Otherwise the result is ErrNotFound exactly when the root is "no rows", and ErrInternal otherwise. |
| Repository.HandleErrorRange | internal/repository/postgres/repository.go:39-50 | The output is always nil, a context error, ErrNotFound or ErrInternal. |
| GoErrors.Is | internal/repository/postgres/repository.go:43-46 | An error that `errors.Is` matches against a target shares the target's root: unwrapping never leaves the chain. |
| GoErrors.IsSentinel | internal/repository/postgres/repository.go:43-46 | `errors.Is` against a sentinel asks whether the root of the `%w` chain is that sentinel. |
| Business.MapError | internal/business/errors.go:14-19 | The output is one of two values. It is business ErrNotFound exactly when the root is repository ErrNotFound. |
| Helpers.HandleBusinessError | internal/delivery/http/helpers.go:80-87 | The status is 404 with "subscription not found" exactly when the error is business ErrNotFound; otherwise it is 500 with "internal error". |
| ErrorPath.ReplyFor | internal/business/errors.go:14-19 | After mapError and handleBusinessError, a repository error gives 404 exactly when it is ErrNotFound; otherwise 500 "internal error". |
| ErrorPath.DriverErrorReply | internal/repository/postgres/repository.go:39-50 | End to end, a driver error gives 404 exactly when it is (a wrapping of) "no rows"; everything else gives 500 "internal error". |
| ErrorPath.ContextErrorReply | internal/business/errors.go:18 | A context error passes through handleError unchanged, yet still ends as 500. |
| Helpers.ParsePagination | internal/delivery/http/helpers.go:52-70 | Always 1 <= limit <= 100 and offset >= 0. A parsed limit <= 0 becomes 10; this covers missing text and any syntax error, since those parse to 0. A limit above 100 becomes 100; this covers a digit run above the int32 maximum, since that clamps upward. A limit in range passes through. A negative or malformed offset becomes 0, and a non-negative one passes through. |
| Helpers.PaginationFromDigits | internal/delivery/http/helpers.go:52-70 | Digit texts for a limit in 1..100 and an offset within 32 bits reach the list parameters unchanged. |
| Decimal.ParseInt32 | internal/delivery/http/helpers.go:53-54 | The value is always within int32. It succeeds exactly for an optional sign followed by at least one digit and nothing else, with the signed number in range, and then the value is that signed number. The error is ErrRange exactly when the digits run past 2^32-1 before any other character (the unsigned scan inside strconv.ParseInt, sized 32 bits too, stops there), or when the text is well formed but outside int32; every other failure is ErrSyntax. A range error gives MinInt32 for a leading '-' and MaxInt32 otherwise. A syntax error gives 0. |
| Decimal.ParsePlusSign | internal/delivery/http/helpers.go:53-54 | "+5" parses to 5 without error. |
| Decimal.ParseLeadingZeros | internal/delivery/http/helpers.go:53-54 | "-007" parses to -7 without error. |
| Decimal.ParseTrailingJunk | internal/delivery/http/helpers.go:53-54 | "12abc" is a syntax error giving 0, so such a limit falls back to 10. |
| Decimal.LeadingDigitsUnique | internal/delivery/http/helpers.go:53-54 | The digit prefix the scan stops at is the only digit prefix not followed by a digit. |
| Decimal.ParseAllDigits | internal/delivery/http/helpers.go:53-54 | A plain digit string within the int32 range parses to its value without error. |
| Decimal.ParseDigits | internal/delivery/http/helpers.go:53-54 | Parsing the decimal rendering of n in [0, 2^31-1] gives n back. |
| Decimal.ParseNegativeDigits | internal/delivery/http/helpers.go:53-54 | Parsing "-" + the rendering of n gives -n down to -2^31. |
| Decimal.ParseOverflowClampsHigh | internal/delivery/http/helpers.go:53-61 | A digit run above 2^32-1 is a range error clamped to the int32 maximum, whatever follows it, so such a limit ends as 100. |
| Decimal.ParseOverflowBeforeJunk | internal/delivery/http/helpers.go:53-61 | "4294967296x" is a range error giving the int32 maximum: the scan overflows 32 bits before it reads the x. |
| Decimal.ParseJunkAfterDigits | internal/delivery/http/helpers.go:53-57 | A digit run up to 2^32-1 followed by a non-digit is a syntax error giving 0, even when the digits exceed int32 (so "3000000000x" as a limit ends as 10, while "4294967296x" ends as 100). |
| Helpers.MissingParameter | internal/delivery/http/helpers.go:53-57 | An absent query value is the empty string, which is a syntax error giving 0, so the limit becomes 10 and the offset 0. |
| Decimal.ValueOfDigits | internal/delivery/http/helpers.go:53-54 | The decimal rendering reads back as its number. |
| Helpers.ToSubscriptionResponse | internal/delivery/http/helpers.go:29-45 | id, name, price, user and created_at are copied. The end date is present in the response exactly when the record has one. |
| Helpers.ResponseDatesRoundTrip | internal/delivery/http/helpers.go:35-42 | Parsing the response's start and end dates gives back the first day of the record's months. |
| Helpers.ToSubscriptionListResponse | internal/delivery/http/helpers.go:72-78 | The length is preserved, and element i is the response for subscription i. |
| Dto.CreateSubscriptionRequest.Validate | internal/delivery/http/dto.go:22-27 | Fails, with ErrPrice, exactly when the price is negative; zero is accepted. |
| Dto.CreateValidateOnlyPrice | internal/delivery/http/dto.go:22-27 | Validation looks at nothing but the price. |
| Dto.ValidateUpdateAsWritten | internal/delivery/http/dto.go:36-41 | As written, it dereferences nil exactly when no price was sent, and rejects exactly a present negative price. |
| Dto.UpdateValidatePanics | internal/delivery/http/dto.go:36-41 | An update that only renames the service reaches the nil dereference. |
| Dto.ValidateUpdate | internal/delivery/http/dto.go:36-41 | Intended check: an error exactly when a price is present and negative. |
| Dto.ValidateUpdateAgrees | internal/delivery/http/dto.go:36-41 | When a price is present, the written check and the intended one agree. |
| Dto.NewTotalCostResponse | internal/delivery/http/dto.go:61-66 | Total and count are carried unchanged. |
| MonthYear.Parse | internal/delivery/http/utils.go:9-15 | It succeeds exactly for two digits forming 01..12, '-', then four digits and nothing more. The value is day 1 of that month and year. Every failure message starts with "invalid date format, expected MM-YYYY". |
| MonthYear.Format | internal/delivery/http/utils.go:18-20 | For years 0..9999 the output is a two-digit month, '-', then a four-digit year, reading back as the date's month and year. |
| MonthYear.FormatParse | internal/delivery/http/utils.go:9-20 | format(parse(s)) = s for every accepted s. |
| MonthYear.ParseFormat | internal/delivery/http/utils.go:9-20 | parse(format(t)) is the first day of t's month: the day is dropped. |
| MonthYear.IsoDateRefused | internal/delivery/http/utils.go:9-15 | "2024-01-01" is refused. |
| MonthYear.PadFour | internal/delivery/http/utils.go:18-20 | The year is written in digits only; a year up to 9999 takes exactly four digits, zero-padded, and reads back as the year. |
| MonthYear.SameWidthUnique | internal/delivery/http/utils.go:18-20 | Digit texts of the same width and value are equal, so each month and year has one zero-padded spelling. |
| Scenarios.CreateTwice | internal/repository/postgres/tests/subscriptions_test.go:80-93 | Two creates for the same user give distinct ids and echo their inputs. |
| Scenarios.DeleteThenGet | internal/repository/postgres/tests/subscriptions_test.go:355-366 | A delete that succeeds makes the next get not-found, answered with 404. |
| Scenarios.DeleteKeepsOthers | internal/repository/postgres/tests/subscriptions_test.go:376-389 | Deleting one subscription leaves the other readable. |
| Scenarios.UpdateNothing | internal/repository/postgres/tests/subscriptions_test.go:325-336 | An update with no fields returns the current record. |
| Scenarios.UpdatePrice | internal/repository/postgres/tests/subscriptions_test.go:276-288 | A price update changes the price and keeps the name. |
| Scenarios.UpdateUnknown | internal/repository/postgres/tests/subscriptions_test.go:338-347 | Updating an unknown id is ErrNotFound, answered with 404. |
| Scenarios.ListNewestFirst | internal/repository/postgres/tests/subscriptions_test.go:186-202 | The most recently created subscription is listed first. |
| Scenarios.CostOfEmptyTable | internal/repository/postgres/tests/subscriptions_test.go:397-410 | An empty table gives total 0 and count 0. |
| Scenarios.CostForPeriod | internal/repository/postgres/tests/subscriptions_test.go:412-435 | Rows starting in January and June 2025 count toward 2025: (300, 2). |
| Scenarios.CostExcludesOutsidePeriod | internal/repository/postgres/tests/subscriptions_test.go:437-466 | A row starting in 2026 and a row that ended in December 2024 do not count toward 2025; only the June 2025 row does: (300, 1). |

## Left out

- Subscriptions.SubscriptionTable.CreateSubscription: requires the price to fit int32. The `int32(input.Price)` narrowing, which would wrap a larger price silently, is not modelled.
- MonthYear.Format: its contract speaks only for years 0..9999. Go renders other years with a sign or a fifth digit, and those do not parse back.
- Helpers.ToSubscriptionResponse: `created_at` is the table's logical clock value, copied as is. RFC 3339 rendering of a timestamp is not modelled.
- MonthYear.Parse: a failure message is the fixed prefix followed by the failure kind. The exact text of Go's `time.ParseError` is not reproduced.
- UpdateStatement.UpdateQuery.Text, CostQuery.CostQuery.Text: the statement text is rendered from the fragments, but no lemma states its literal characters. The builders' contracts speak about the fragments and the bound values.
- Time of day and time zones: a date is a calendar date. Parsed values are midnight UTC in Go, and only their date matters here.
- Database failures are a `fault` parameter. A failed statement changes nothing: no partial effects, and no id is consumed by a failed insert.
- `created_at` is a strictly increasing logical clock. Rows with equal creation timestamps, and their unspecified order under `ORDER BY created_at DESC`, are not modelled.
- Integers are unbounded. The BIGINT overflow of `SUM(price)` and the int64 fields of the responses are not modelled.
- Concurrency, connection pooling, transactions and logging are not modelled. Each operation is one atomic step.
- `internal/delivery/http/handler.go` is not part of this model. That covers routing, JSON decoding, `parseID`, and turning empty query parameters into absent filters. The PATCH handler's not calling `Validate` is also left out.
- `internal/business/usecases.go` is not part of this model. Each use case is "call the repository, log, mapError", and `mapError` is modelled.
- Configuration, server start-up, Swagger serving and the unused domain DTOs are not part of this model.
- The sqlc-generated queries are not shown. Their SQL is modelled from the repository's calls: insert with RETURNING, select by id, ordered and windowed selects, and delete with a count of affected rows.
- The domain package's `ParseMonthYear`/`FormatMonthYear` (internal/domain/subscription.go:51-63) use the same `"01-2006"` layout as the handler's codec. Both are modelled once, by MonthYear.Parse and MonthYear.Format.
- UUIDs are 128-bit values compared for equality. Their text form is not modelled.
- The response price is kept as `int`. The `int`/`int32` mismatch between the record and the response type is not mirrored.

## Findings

| source | as written | input that shows it | evidently intended | confidence | as-written member | corrected member |
|---|---|---|---|---|---|---|
| internal/delivery/http/dto.go:36-41 | `UpdateSubscriptionRequest.Validate` dereferences `Price` without checking that a price was sent | an update body carrying only `service_name` (no `price`) | an absent price passes validation, and a present one must not be negative | not executed; today's PATCH handler does not call `Validate`, so the crash is latent | Dto.ValidateUpdateAsWritten (Dto.UpdateValidatePanics) | Dto.ValidateUpdate (Dto.ValidateUpdateAgrees) |
