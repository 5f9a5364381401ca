/**
 * The sign-in page: a role picked from a list, a name and a password compared
 * with the one fixed pair that role accepts.
 */
module Login {
  import opened Common
  import opened Auth

  datatype LoginForm = LoginForm(username: string, password: string, role: string)

  /** The form as the page opens: the cashier's own pair, already filled in. */
  const InitialForm: LoginForm := LoginForm("cashier", "cashier123", "cashier")

  datatype Credentials = Credentials(username: string, password: string)

  /** `validCredentials`: one pair per role; no pair for any other role. */
  function ValidCredentials(role: string): (r: Option<Credentials>)
    ensures r.Some? <==> role == Admin || role == Cashier
  {
    if role == Admin then Some(Credentials("admin", "admin123"))
    else if role == Cashier then Some(Credentials("cashier", "cashier123"))
    else None
  }

  /**
   * The comparison in `handleSubmit`: `None` when the role has no pair, since
   * reading a field of the missing pair throws; otherwise whether both fields match.
   */
  function CheckCredentials(form: LoginForm): (r: Option<bool>)
    ensures r.None? <==> form.role != Admin && form.role != Cashier
    ensures r == Some(true) <==>
      || (form.role == Admin && form.username == "admin" && form.password == "admin123")
      || (form.role == Cashier && form.username == "cashier" && form.password == "cashier123")
  {
    match ValidCredentials(form.role)
    case None => None
    case Some(creds) => Some(form.username == creds.username && form.password == creds.password)
  }

  /** The pair is chosen by the role: the admin's pair is refused under the cashier role. */
  lemma AdminPairFailsAsCashier()
    ensures CheckCredentials(LoginForm("admin", "admin123", Cashier)) == Some(false)
    ensures CheckCredentials(LoginForm("admin", "admin123", Admin)) == Some(true)
  {
  }

  /** The form as it opens signs in at once. */
  lemma InitialFormPasses()
    ensures CheckCredentials(InitialForm) == Some(true)
  {
  }

  /** The three ways a submission ends, each with its own toast. */
  datatype LoginOutcome = SignedIn | InvalidCredentials | LoginError

  class LoginPage {
    var formData: LoginForm
    var showPassword: bool
    var isLoading: bool

    constructor ()
      ensures formData == InitialForm && !showPassword && !isLoading
    {
      formData := InitialForm;
      showPassword := false;
      isLoading := false;
    }

    /** `handleInputChange`: the field the input names takes the value; the other fields keep theirs. */
    method HandleInputChange(name: string, value: string)
      modifies this
      ensures formData.username == if name == "username" then value else old(formData.username)
      ensures formData.password == if name == "password" then value else old(formData.password)
      ensures formData.role == if name == "role" then value else old(formData.role)
      ensures showPassword == old(showPassword) && isLoading == old(isLoading)
    {
      if name == "username" {
        formData := formData.(username := value);
      } else if name == "password" {
        formData := formData.(password := value);
      } else if name == "role" {
        formData := formData.(role := value);
      }
    }

    /** The eye button: the password shown or hidden in turn. */
    method TogglePassword()
      modifies this
      ensures showPassword == !old(showPassword)
      ensures formData == old(formData) && isLoading == old(isLoading)
    {
      showPassword := !showPassword;
    }

    /**
     * `handleSubmit`: when the pair matches, the provider signs in a user carrying
     * the name typed, the role chosen and the time `now`; otherwise the provider is
     * left alone. The page stops loading in every case.
     */
    method HandleSubmit(auth: AuthProvider, now: int) returns (outcome: LoginOutcome)
      modifies this, auth
      ensures !isLoading && formData == old(formData) && showPassword == old(showPassword)
      ensures outcome == SignedIn <==> CheckCredentials(formData) == Some(true)
      ensures outcome == LoginError <==> CheckCredentials(formData).None?
      ensures outcome == SignedIn ==>
        && auth.user == Some(User(formData.username, formData.role, now))
        && auth.storage == Parses(auth.user)
      ensures outcome != SignedIn ==> auth.user == old(auth.user) && auth.storage == old(auth.storage)
      ensures auth.isLoading == old(auth.isLoading)
    {
      isLoading := true;
      var check := CheckCredentials(formData);
      match check {
        case None =>
          outcome := LoginError;
        case Some(ok) =>
          if ok {
            auth.Login(User(formData.username, formData.role, now));
            outcome := SignedIn;
          } else {
            outcome := InvalidCredentials;
          }
      }
      isLoading := false;
    }
  }

  /** Signing in as admin through the page gives every admin permission. */
  method AdminSignIn(stored: StoredUser, now: int, permission: string) returns (outcome: LoginOutcome, allowed: bool)
    requires permission in AdminPermissions
    ensures outcome == SignedIn && allowed
  {
    var auth := new AuthProvider(stored);
    auth.Restore();
    var page := new LoginPage();
    page.HandleInputChange("role", Admin);
    page.HandleInputChange("username", "admin");
    page.HandleInputChange("password", "admin123");
    outcome := page.HandleSubmit(auth, now);
    allowed := auth.HasPermission(permission);
  }
}
