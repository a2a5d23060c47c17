/**
 * The route guard that wraps the app: while the session check runs it shows
 * a spinner; afterwards it sends signed-out users away from the tabs and
 * signed-in users away from the sign-in and welcome screens.
 */
module ProtectedRoute {
  import opened Wrappers

  /** The two places the guard sends a user. */
  datatype Redirect = ToWelcome | ToTabs

  /** What the guard renders. */
  datatype View = Spinner | Children

  /** The first route segment each redirect lands on. */
  function Landing(r: Redirect): string {
    match r
    case ToWelcome => "welcome"
    case ToTabs => "(tabs)"
  }

  /** `segments[0] === "auth" || segments[0] === "welcome"` */
  predicate InAuthGroup(first: Option<string>) {
    first == Some("auth") || first == Some("welcome")
  }

  /** `segments[0] === "(tabs)"` */
  predicate InProtectedGroup(first: Option<string>) {
    first == Some("(tabs)")
  }

  /**
   * The effect's decision, for the first route segment (None when there is
   * none): at most one redirect, and none while loading.
   */
  function Decide(isLoading: bool, isAuthenticated: bool, first: Option<string>): (r: Option<Redirect>)
    ensures isLoading ==> r == None
    ensures r == Some(ToWelcome) <==> !isLoading && !isAuthenticated && InProtectedGroup(first)
    ensures r == Some(ToTabs) <==> !isLoading && isAuthenticated && InAuthGroup(first)
  {
    if isLoading then None
    else if !isAuthenticated && InProtectedGroup(first) then Some(ToWelcome)
    else if isAuthenticated && InAuthGroup(first) then Some(ToTabs)
    else None
  }

  /** The guard shows the spinner exactly while loading, and its children otherwise. */
  function Render(isLoading: bool): (v: View)
    ensures v == Spinner <==> isLoading
  {
    if isLoading then Spinner else Children
  }

  /**
   * Where a redirect lands, the guard does not redirect again for the same
   * session state, so it never bounces between the two.
   */
  /**
   * The guard as the file is written: it takes `isAuthenticated` from
   * hooks/useAuth.ts, whose hook returns `isLoggedIn` and no
   * `isAuthenticated`, so the flag is always undefined and read as false.
   * Once loaded it never sends anyone to the tabs, and it sends every user
   * in the tabs to the welcome page.
   */
  function DecideAsWritten(isLoading: bool, first: Option<string>): (r: Option<Redirect>)
    ensures r != Some(ToTabs)
    ensures r == Some(ToWelcome) <==> !isLoading && InProtectedGroup(first)
  {
    Decide(isLoading, false, first)
  }

  /**
   * A signed-in user who opens the tabs is sent to the welcome page by the
   * guard as written, where the guard on the provider's state leaves them.
   */
  lemma SignedInUserLeavesTabsAsWritten()
    ensures DecideAsWritten(false, Some("(tabs)")) == Some(ToWelcome)
    ensures Decide(false, true, Some("(tabs)")) == None
  {
  }

  lemma RedirectSettles(isAuthenticated: bool, first: Option<string>)
    requires Decide(false, isAuthenticated, first).Some?
    ensures Decide(false, isAuthenticated, Some(Landing(Decide(false, isAuthenticated, first).value))) == None
  {
  }
}
