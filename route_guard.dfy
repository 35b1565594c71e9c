/** The navigation guard (`authGuard`): one decision from the target path and the
    authentication flag. */
module RouteGuard {
  import opened Seqs

  /** The argument `next` is called with: nothing, or a path to redirect to. */
  datatype Decision = Proceed | Redirect(path: string)

  const ProtectedRoutes: seq<string> := ["/favorites", "/watchlist", "/watched", "/myshows"]

  /** `protectedRoutes.some(route => path.startsWith(route))`. */
  function RequiresAuth(path: string): (b: bool)
    ensures b <==> exists i :: 0 <= i < |ProtectedRoutes| && ProtectedRoutes[i] <= path
  {
    Any(ProtectedRoutes, (route: string) => route <= path)
  }

  /** The decision of one guard invocation; `next` is called exactly once, with this. */
  function AuthGuard(path: string, isAuthenticated: bool): (d: Decision)
    ensures d == Redirect("/login") <==> RequiresAuth(path) && !isAuthenticated
    ensures d == Redirect("/") <==> (path == "/login" || path == "/register") && isAuthenticated
    ensures d == Proceed <==>
      !(RequiresAuth(path) && !isAuthenticated) && !((path == "/login" || path == "/register") && isAuthenticated)
  {
    if RequiresAuth(path) && !isAuthenticated then Redirect("/login")
    else if (path == "/login" || path == "/register") && isAuthenticated then Redirect("/")
    else Proceed
  }

  /** The protected set is closed under extension: the match is by prefix. */
  lemma ProtectedByPrefix(path: string, suffix: string)
    requires RequiresAuth(path)
    ensures RequiresAuth(path + suffix)
  {
    var i :| 0 <= i < |ProtectedRoutes| && ProtectedRoutes[i] <= path;
    assert ProtectedRoutes[i] <= path + suffix by {
      assert (path + suffix)[..|ProtectedRoutes[i]|] == path[..|ProtectedRoutes[i]|];
    }
  }

  /** Neither redirect target is protected. */
  lemma TargetsNotProtected()
    ensures !RequiresAuth("/login") && !RequiresAuth("/")
  {
    forall i | 0 <= i < |ProtectedRoutes| ensures !(ProtectedRoutes[i] <= "/login") && !(ProtectedRoutes[i] <= "/") {
      assert |ProtectedRoutes[i]| > |"/login"|;
    }
  }

  /** A redirect lands on a page the guard lets through in the same state, so the guard
      never redirects twice in a row. */
  lemma RedirectsAreStable(path: string, isAuthenticated: bool)
    ensures AuthGuard(path, isAuthenticated).Redirect? ==>
      AuthGuard(AuthGuard(path, isAuthenticated).path, isAuthenticated) == Proceed
  {
    TargetsNotProtected();
  }

  /** An anonymous visit to the sign-in page passes through. */
  lemma AnonymousSignInPasses()
    ensures AuthGuard("/login", false) == Proceed && AuthGuard("/register", false) == Proceed
  {
    TargetsNotProtected();
    forall i | 0 <= i < |ProtectedRoutes| ensures !(ProtectedRoutes[i] <= "/register") {
      if i == 0 || i == 1 {
        assert |ProtectedRoutes[i]| > |"/register"|;
      } else {
        assert ProtectedRoutes[i][1] != "/register"[1];
      }
    }
  }
}
