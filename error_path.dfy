/**
 * The error chain end to end: the repository's `handleError`, the use case's
 * `mapError`, then the handler's `handleBusinessError`.
 */
module ErrorPath {
  import opened Wrappers
  import opened GoErrors
  import opened Repository
  import opened Business
  import opened Helpers

  /** The reply for an error a repository operation returned. */
  function ReplyFor(repoErr: GoError): (r: ErrorReply)
    ensures r.status == 404 <==> Root(repoErr) == RepoNotFound
    ensures r.status != 404 ==> r == ErrorReply(500, "internal error")
  {
    HandleBusinessError(MapError(repoErr))
  }

  /**
   * A driver error ends as 404 "subscription not found" exactly when it is
   * (a wrapping of) "no rows"; everything else, context errors included, ends as 500.
   */
  lemma DriverErrorReply(e: GoError)
    ensures var reply := ReplyFor(HandleError(Some(e)).value);
      && (reply.status == 404 <==> Root(e) == NoRows)
      && (reply.status != 404 ==> reply == ErrorReply(500, "internal error"))
  {
    var h := HandleError(Some(e)).value;
    RootOfSentinel(h);
    if IsContextError(e) {
      assert h == e;
    }
  }

  /** A deadline or cancellation is passed on by the repository, yet still answered with 500. */
  lemma ContextErrorReply(e: GoError)
    requires IsContextError(e)
    ensures HandleError(Some(e)) == Some(e)
    ensures ReplyFor(e).status == 500
  {
  }
}
