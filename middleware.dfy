/**
 * The request middleware: without a session token, paths under "/booking"
 * and "/my-bookings" are redirected to the login page; everything else
 * passes through.
 */
module Middleware {
  import opened Wrappers
  import opened Text

  const LoginPath := "/login"

  /** The redirect target for a request, or None to let it through. */
  function Route(hasToken: bool, pathname: string): (r: Option<string>)
    ensures r.Some? ==> r.value == LoginPath
    ensures r.Some? <==> !hasToken && (StartsWith(pathname, "/booking") || StartsWith(pathname, "/my-bookings"))
  {
    if !hasToken && StartsWith(pathname, "/booking") then Some(LoginPath)
    else if !hasToken && StartsWith(pathname, "/my-bookings") then Some(LoginPath)
    else None
  }

  /** A request with a token is never redirected. */
  lemma TokenPassesEverywhere(pathname: string)
    ensures Route(true, pathname) == None
  {
  }

  /** The guard is a prefix test, so it also covers "/bookings/..." and
      "/booking/details/...", but not "/api/bookings" or "/profile". */
  lemma GuardedPaths()
    ensures Route(false, "/booking/42") == Some(LoginPath)
    ensures Route(false, "/booking/details/42") == Some(LoginPath)
    ensures Route(false, "/my-bookings") == Some(LoginPath)
    ensures Route(false, "/api/bookings") == None
    ensures Route(false, "/profile") == None
  {
    assert "/api/bookings"[1] != "/booking"[1] && "/api/bookings"[1] != "/my-bookings"[1];
    assert "/profile"[1] != "/booking"[1] && "/profile"[1] != "/my-bookings"[1];
  }
}
