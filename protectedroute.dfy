/**
 * The guard around every page but the sign-in page: a spinner while the stored
 * user is read, then the sign-in page for nobody, the dashboard for a user the
 * page's permission refuses, and the page itself otherwise.
 */
module ProtectedRoute {
  import opened Common
  import opened Auth

  datatype Route = Spinner | RedirectLogin | RedirectDashboard | RenderChildren

  /**
   * `ProtectedRoute`. A required permission that is the empty string is falsy and
   * so asks for nothing.
   */
  function Guard(isLoading: bool, user: Option<User>, required: Option<string>): (r: Route)
    ensures isLoading ==> r == Spinner
    ensures r == RedirectLogin <==> !isLoading && user.None?
    ensures r == RedirectDashboard <==>
      !isLoading && user.Some? && required.Some? && required.value != "" && !Permitted(user, required.value)
    ensures r == RenderChildren <==>
      !isLoading && user.Some? && (required.None? || required.value == "" || Permitted(user, required.value))
  {
    if isLoading then Spinner
    else if user.None? then RedirectLogin
    else if required.Some? && required.value != "" && !Permitted(user, required.value) then RedirectDashboard
    else RenderChildren
  }

  /** The guard as the provider's state decides it. */
  function GuardFor(auth: AuthProvider, required: Option<string>): (r: Route)
    reads auth
    ensures !auth.isLoading && auth.IsAuthenticated() && required.None? ==> r == RenderChildren
    ensures r == RenderChildren ==> auth.IsAuthenticated()
  {
    Guard(auth.isLoading, auth.user, required)
  }

  /** A page a cashier may open, an admin may open too. */
  lemma AdminPassesWhereCashierDoes(cashier: User, admin: User, required: Option<string>)
    requires cashier.role == Cashier && admin.role == Admin
    requires Guard(false, Some(cashier), required) == RenderChildren
    ensures Guard(false, Some(admin), required) == RenderChildren
  {
    if required.Some? && required.value != "" {
      CashierWithinAdmin(cashier, admin, required.value);
    }
  }

  /** The expenses and settings pages send a cashier back to the dashboard. */
  lemma CashierSentToDashboard(cashier: User, required: string)
    requires cashier.role == Cashier
    requires required in ["view_expenses", "view_settings"]
    ensures Guard(false, Some(cashier), Some(required)) == RedirectDashboard
  {
    CashierRestricted(cashier, required);
  }

  /** Once loading ends with nobody signed in, every page leads to the sign-in page. */
  lemma NobodyGoesToLogin(required: Option<string>)
    ensures Guard(false, None, required) == RedirectLogin
  {
  }

  /** After a restart with a corrupt entry, every page leads to the sign-in page. */
  method CorruptEntryGuard(required: Option<string>) returns (r: Route)
    ensures r == RedirectLogin
  {
    var auth := new AuthProvider(Unparsable);
    auth.Restore();
    r := GuardFor(auth, required);
  }
}
