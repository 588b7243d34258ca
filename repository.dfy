/** The repository's translation of driver errors (repository.go). */
module Repository {
  import opened Wrappers
  import opened GoErrors

  /**
   * `handleError`: nil stays nil; a context deadline or cancellation is passed
   * on unchanged (checked first); "no rows" becomes ErrNotFound; everything
   * else becomes ErrInternal.
   */
  function HandleError(err: Option<GoError>): (r: Option<GoError>)
    ensures err.None? <==> r.None?
    ensures err.Some? && IsContextError(err.value) ==> r == err
    ensures err.Some? ==> (IsContextError(r.value) <==> IsContextError(err.value))
    ensures err.Some? ==> (r.value == RepoNotFound <==> Root(err.value) == NoRows)
    ensures err.Some? ==> (r.value == RepoInternal <==> !IsContextError(err.value) && Root(err.value) != NoRows)
  {
    match err
    case None => None
    case Some(e) =>
      IsSentinel(e, DeadlineExceeded);
      IsSentinel(e, Canceled);
      IsSentinel(e, NoRows);
      RootOfSentinel(e);
      if Is(e, DeadlineExceeded) || Is(e, Canceled) then Some(e)
      else if Is(e, NoRows) then Some(RepoNotFound)
      else Some(RepoInternal)
  }

  /** An error that is itself a repository sentinel has that sentinel as its root. */
  lemma RootOfSentinel(e: GoError)
    ensures e == RepoNotFound || e == RepoInternal ==> Root(e) == e
  {
  }

  /** The translated error is always nil, a context error, ErrNotFound or ErrInternal. */
  lemma HandleErrorRange(err: Option<GoError>)
    ensures var r := HandleError(err);
      r.None? || IsContextError(r.value) || r.value == RepoNotFound || r.value == RepoInternal
  {
  }
}
