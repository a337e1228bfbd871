/**
 * The route table and its two guards: which page a path shows, given whether the session is
 * still loading and who is signed in.
 */
module App {
  import opened Wrappers
  import opened Types
  import Polls
  import PollDetail

  datatype Page =
    | LoginPage | RegisterPage | HomePage | PollDetailPage(id: string) | ResultsPage(id: string)
    | ProfilePage | AdminPage | ForgotPasswordPage | VerifyOtpPage | ResetPasswordPage

  /** What a route shows: the loading placeholder, a page, or a redirect. */
  datatype Outcome = Loading | Render(page: Page) | RedirectTo(path: string)

  /** `ProtectedRoute`: the placeholder while loading, the page for any signed-in user, and the
      sign-in page otherwise. */
  function ProtectedRoute(isLoading: bool, user: Option<User>, page: Page): (r: Outcome)
    ensures isLoading ==> r == Loading
    ensures !isLoading && user.Some? ==> r == Render(page)
    ensures !isLoading && user.None? ==> r == RedirectTo("/login")
  {
    if isLoading then Loading
    else if user.Some? then Render(page)
    else RedirectTo("/login")
  }

  /** `AdminRoute`: the placeholder while loading, the page for an administrator, and the home
      page for everyone else, signed in or not. */
  function AdminRoute(isLoading: bool, user: Option<User>, page: Page): (r: Outcome)
    ensures isLoading ==> r == Loading
    ensures !isLoading && IsAdminUser(user) ==> r == Render(page)
    ensures !isLoading && !IsAdminUser(user) ==> r == RedirectTo("/")
  {
    if isLoading then Loading
    else if IsAdminUser(user) then Render(page)
    else RedirectTo("/")
  }

  /** Whatever an administrator may open, a signed-in user may open through `ProtectedRoute`:
      the admin guard lets through fewer visitors, never more. */
  lemma AdminGuardIsStricter(isLoading: bool, user: Option<User>, page: Page)
    ensures AdminRoute(isLoading, user, page).Render? ==> ProtectedRoute(isLoading, user, page).Render?
    ensures user.Some? && user.value.isAdmin != Some(true) && !isLoading ==>
              ProtectedRoute(isLoading, user, page).Render? && AdminRoute(isLoading, user, page) == RedirectTo("/")
  {
  }

  /** The value of a `:id` segment: the rest of the path after `prefix`, which must be non-empty
      and hold no further `/`. */
  function Param(path: string, prefix: string): (r: Option<string>)
    ensures r.Some? <==> |path| > |prefix| && path[..|prefix|] == prefix && '/' !in path[|prefix|..]
    ensures r.Some? ==> path == prefix + r.value && r.value != ""
  {
    if |path| > |prefix| && path[..|prefix|] == prefix && '/' !in path[|prefix|..] then
      assert path == path[..|prefix|] + path[|prefix|..];
      Some(path[|prefix|..])
    else None
  }

  /** The paths the table names, apart from the catch-all. */
  predicate Matched(path: string) {
    path in {"/login", "/register", "/", "/profile", "/admin"}
    || Param(path, "/poll/").Some? || Param(path, "/results/").Some?
  }

  /** A `/poll/:id` or `/results/:id` path is none of the fixed paths, and the two patterns
      never match the same path. */
  lemma PatternsDisjoint(path: string)
    ensures Param(path, "/poll/").Some? ==>
              path !in {"/login", "/register", "/", "/profile", "/admin"} && Param(path, "/results/").None?
    ensures Param(path, "/results/").Some? ==> path !in {"/login", "/register", "/", "/profile", "/admin"}
  {
    if Param(path, "/poll/").Some? {
      assert path[..6] == "/poll/";
      assert path[2] == 'o' && path[3] == 'l';
    }
    if Param(path, "/results/").Some? {
      assert path[..9] == "/results/";
      assert path[2] == 'e' && path[3] == 's';
    }
  }

  /** The route table of `AppContent`. */
  function Route(path: string, isLoading: bool, user: Option<User>): (r: Outcome)
    ensures !Matched(path) ==> r == RedirectTo("/")
    ensures path in {"/login", "/register"} && user.Some? ==> r == RedirectTo("/")
    ensures path == "/login" && user.None? ==> r == Render(LoginPage)
    ensures path == "/register" && user.None? ==> r == Render(RegisterPage)
    ensures path == "/" ==> r == ProtectedRoute(isLoading, user, HomePage)
    ensures Param(path, "/poll/").Some? ==>
              r == ProtectedRoute(isLoading, user, PollDetailPage(Param(path, "/poll/").value))
    ensures Param(path, "/results/").Some? ==>
              r == ProtectedRoute(isLoading, user, ResultsPage(Param(path, "/results/").value))
    ensures path == "/profile" ==> r == ProtectedRoute(isLoading, user, ProfilePage)
    ensures path == "/admin" ==> r == AdminRoute(isLoading, user, AdminPage)
  {
    PatternsDisjoint(path);
    if path == "/login" then (if user.Some? then RedirectTo("/") else Render(LoginPage))
    else if path == "/register" then (if user.Some? then RedirectTo("/") else Render(RegisterPage))
    else if path == "/" then ProtectedRoute(isLoading, user, HomePage)
    else if Param(path, "/poll/").Some? then ProtectedRoute(isLoading, user, PollDetailPage(Param(path, "/poll/").value))
    else if Param(path, "/results/").Some? then ProtectedRoute(isLoading, user, ResultsPage(Param(path, "/results/").value))
    else if path == "/profile" then ProtectedRoute(isLoading, user, ProfilePage)
    else if path == "/admin" then AdminRoute(isLoading, user, AdminPage)
    else RedirectTo("/")
  }

  /** The outcome after following at most `n` redirects. */
  function Follow(path: string, isLoading: bool, user: Option<User>, n: nat): Outcome
    decreases n
  {
    var o := Route(path, isLoading, user);
    if o.RedirectTo? && n > 0 then Follow(o.path, isLoading, user, n - 1) else o
  }

  /** No redirect loops: from any path, at most two redirects end on a page or the placeholder
      (for instance an unknown path, then `/`, then `/login` for a signed-out visitor). */
  lemma {:induction false} RedirectsSettle(path: string, isLoading: bool, user: Option<User>)
    ensures !Follow(path, isLoading, user, 2).RedirectTo?
  {
    var o := Route(path, isLoading, user);
    if o.RedirectTo? {
      assert o.path == "/" || o.path == "/login";
      HomeSettles(isLoading, user);
    }
  }

  /** From `/` a visitor reaches a page or the placeholder after at most one redirect. */
  lemma HomeSettles(isLoading: bool, user: Option<User>)
    ensures !Follow("/", isLoading, user, 1).RedirectTo?
    ensures !Follow("/login", isLoading, user, 1).RedirectTo?
  {
    assert !Matched("/poll/") && Param("/", "/poll/").None? && Param("/", "/results/").None?;
    assert Param("/login", "/poll/").None? && Param("/login", "/results/").None?;
  }

  /** The poll card's details target opens the detail page of that poll for a signed-in user. */
  lemma CardTargetOpensDetail(pollId: string, u: User)
    requires pollId != "" && '/' !in pollId
    ensures Route(Polls.DetailsPath(pollId), false, Some(u)) == Render(PollDetailPage(pollId))
  {
    var path := Polls.DetailsPath(pollId);
    assert path == "/poll/" + pollId;
    assert Param(path, "/poll/") == Some(pollId);
    assert path[1] == 'p' && |path| > 6;
  }

  /** The results link of a closed poll opens its results page for a signed-in user. */
  lemma ResultsLinkOpensResults(pollId: string, u: User, timeLeft: int, hasVoted: bool, selected: string)
    requires pollId != "" && '/' !in pollId && timeLeft <= 0
    ensures var c := PollDetail.PageControls(pollId, timeLeft, hasVoted, selected);
            c.resultsTarget.Some? && Route(c.resultsTarget.value, false, Some(u)) == Render(ResultsPage(pollId))
  {
    var path := "/results/" + pollId;
    assert Param(path, "/results/") == Some(pollId);
    assert path[1] == 'r' && path[2] == 'e' && path[3] == 's' && |path| > 9;
  }

  /** The password-recovery pages. */
  predicate IsRecoveryPath(path: string) {
    path in {"/forgot-password", "/verify-otp", "/reset-password"}
  }

  /** As written, the sign-in page's "Forgot password?" link has no route: the catch-all sends
      a signed-out visitor home, and the home guard sends them back to the sign-in page. Every
      recovery page is unreachable in the same way. */
  lemma RecoveryLinkReturnsToLogin(path: string)
    requires IsRecoveryPath(path)
    ensures Route(path, false, None) == RedirectTo("/")
    ensures Follow(path, false, None, 2) == Render(LoginPage)
  {
    assert !Matched(path) by {
      assert path[..6][1] == path[1] && path[..9][4] == path[4];
      assert path[1] != 'p' && (path[1] != 'r' || path[4] != 'u');
    }
    HomeSettles(false, None);
  }

  /** The table with the three recovery pages routed, unguarded like the sign-in page. */
  function RouteWithRecovery(path: string, isLoading: bool, user: Option<User>): (r: Outcome)
    ensures !IsRecoveryPath(path) ==> r == Route(path, isLoading, user)
    ensures path == "/forgot-password" ==> r == Render(ForgotPasswordPage)
    ensures path == "/verify-otp" ==> r == Render(VerifyOtpPage)
    ensures path == "/reset-password" ==> r == Render(ResetPasswordPage)
  {
    if path == "/forgot-password" then Render(ForgotPasswordPage)
    else if path == "/verify-otp" then Render(VerifyOtpPage)
    else if path == "/reset-password" then Render(ResetPasswordPage)
    else Route(path, isLoading, user)
  }

  /** With the recovery routes in place, each step of the recovery flow opens its page for a
      signed-out visitor, and every other path resolves as before. */
  lemma RecoveryFlowReachable(isLoading: bool)
    ensures RouteWithRecovery("/forgot-password", isLoading, None) == Render(ForgotPasswordPage)
    ensures RouteWithRecovery("/verify-otp", isLoading, None) == Render(VerifyOtpPage)
    ensures RouteWithRecovery("/reset-password", isLoading, None) == Render(ResetPasswordPage)
    ensures RouteWithRecovery("/login", isLoading, None) == Render(LoginPage)
  {
  }
}
