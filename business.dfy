/** The use-case layer's error translation (business/errors.go). */
module Business {
  import opened GoErrors

  /**
   * `mapError`: the repository's ErrNotFound (possibly wrapped) becomes the
   * business ErrNotFound; every other error, context errors included, becomes
   * the business ErrInternal. Callers only pass non-nil errors.
   */
  function MapError(err: GoError): (r: GoError)
    ensures r == BizNotFound || r == BizInternal
    ensures r == BizNotFound <==> Root(err) == RepoNotFound
  {
    IsSentinel(err, RepoNotFound);
    if Is(err, RepoNotFound) then BizNotFound else BizInternal
  }
}
