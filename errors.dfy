/** Go `error` values the service tells apart, with `%w` wrapping and `errors.Is`. */
module GoErrors {

  datatype GoError =
    | DeadlineExceeded             // context.DeadlineExceeded
    | Canceled                     // context.Canceled
    | NoRows                       // pgx.ErrNoRows
    | RepoNotFound                 // repository ErrNotFound
    | RepoInternal                 // repository ErrInternal
    | BizNotFound                  // business ErrNotFound
    | BizInternal                  // business ErrInternal
    | DriverFailure(code: string)  // any other failure the database or its driver reports
    | Wrapped(context: string, inner: GoError)  // fmt.Errorf("...: %w", inner)

  /** `errors.Is(err, target)`: `err` or an error it wraps is `target`. */
  predicate Is(err: GoError, target: GoError)
    ensures Is(err, target) ==> Root(err) == Root(target)
  {
    err == target || (err.Wrapped? && Is(err.inner, target))
  }

  /** The error at the bottom of a wrap chain. */
  function Root(err: GoError): (r: GoError)
    ensures !r.Wrapped?
  {
    if err.Wrapped? then Root(err.inner) else err
  }

  /** Against an unwrapped sentinel, `errors.Is` asks what the chain's root is. */
  lemma {:induction false} IsSentinel(err: GoError, target: GoError)
    requires !target.Wrapped?
    ensures Is(err, target) <==> Root(err) == target
  {
    if err.Wrapped? {
      IsSentinel(err.inner, target);
    }
  }

  predicate IsContextError(err: GoError) {
    Root(err) == DeadlineExceeded || Root(err) == Canceled
  }
}
