/**
 * Who is signed in, and what a role may do. The signed-in user is kept in the
 * provider and mirrored in the browser's `userInfo` storage entry, so that a
 * restart of the window finds the same user again.
 */
module Auth {
  import opened Common

  /** The user object the login page builds; `loginTime` is the instant of signing in, in milliseconds. */
  datatype User = User(username: string, role: string, loginTime: int)

  const Admin: string := "admin"
  const Cashier: string := "cashier"

  const AdminPermissions: seq<string> := [
    "view_dashboard", "create_orders", "edit_orders", "delete_orders", "view_orders",
    "view_expenses", "create_expenses", "edit_expenses", "delete_expenses",
    "view_settings", "edit_settings", "view_address_book", "edit_address_book", "view_tracking"
  ]

  const CashierPermissions: seq<string> := [
    "view_dashboard", "create_orders", "edit_orders", "view_orders",
    "view_address_book", "edit_address_book", "view_tracking"
  ]

  /** The permissions table: a list for the two roles it names, nothing for any other. */
  function RolePermissions(role: string): (r: Option<seq<string>>)
    ensures r.Some? <==> role == Admin || role == Cashier
    ensures r.Some? ==> |r.value| == if role == Admin then 14 else 7
  {
    if role == Admin then Some(AdminPermissions)
    else if role == Cashier then Some(CashierPermissions)
    else None
  }

  /** `hasPermission`: false with nobody signed in or a role the table lacks. */
  function Permitted(user: Option<User>, permission: string): (r: bool)
    ensures user.None? ==> !r
    ensures user.Some? && user.value.role != Admin && user.value.role != Cashier ==> !r
    ensures r ==> permission in AdminPermissions
  {
    if user.None? then false
    else
      match RolePermissions(user.value.role)
      case None => false
      case Some(perms) => permission in perms
  }

  /** The permissions of a cashier are some of those of an admin. */
  lemma CashierWithinAdmin(cashier: User, admin: User, permission: string)
    requires cashier.role == Cashier && admin.role == Admin
    requires Permitted(Some(cashier), permission)
    ensures Permitted(Some(admin), permission)
  {
  }

  /** What a cashier may not do: delete orders, or anything about expenses and settings. */
  lemma CashierRestricted(cashier: User, permission: string)
    requires cashier.role == Cashier
    requires permission in ["delete_orders", "view_expenses", "create_expenses", "edit_expenses",
                            "delete_expenses", "view_settings", "edit_settings"]
    ensures !Permitted(Some(cashier), permission)
    ensures Permitted(Some(User(cashier.username, Admin, cashier.loginTime)), permission)
  {
  }

  /** Only the role decides: the name and the time of signing in play no part. */
  lemma PermissionByRoleOnly(u: User, v: User, permission: string)
    requires u.role == v.role
    ensures Permitted(Some(u), permission) == Permitted(Some(v), permission)
  {
  }

  /** The `userInfo` entry of the browser's storage: missing, text that parses (to a user or to `null`), or text that does not. */
  datatype StoredUser = NoEntry | Parses(value: Option<User>) | Unparsable

  class AuthProvider {
    var user: Option<User>
    var isLoading: bool
    /** The `userInfo` storage entry, which outlives the provider. */
    var storage: StoredUser

    /** A fresh provider over whatever the storage holds: nobody signed in yet, still loading. */
    constructor (stored: StoredUser)
      ensures user.None? && isLoading && storage == stored
    {
      user := None;
      isLoading := true;
      storage := stored;
    }

    /** `isAuthenticated`: someone is signed in. */
    function IsAuthenticated(): (r: bool)
      reads this
      ensures r <==> user.Some?
    {
      user.Some?
    }

    /** `hasPermission`, for the user signed in now. */
    function HasPermission(permission: string): (r: bool)
      reads this
      ensures r ==> IsAuthenticated()
      ensures user.Some? && user.value.role == Admin ==> (r <==> permission in AdminPermissions)
      ensures user.Some? && user.value.role == Cashier ==> (r <==> permission in CashierPermissions)
    {
      Permitted(user, permission)
    }

    /**
     * The mount effect: a stored entry that parses becomes the user; one that does
     * not parse is removed and the user stays as it was; loading ends in every case.
     */
    method Restore()
      modifies this
      ensures !isLoading
      ensures old(storage).Parses? ==> user == old(storage).value && storage == old(storage)
      ensures old(storage).NoEntry? ==> user == old(user) && storage == NoEntry
      ensures old(storage).Unparsable? ==> user == old(user) && storage == NoEntry
    {
      match storage {
        case Parses(v) =>
          user := v;
        case Unparsable =>
          storage := NoEntry;
        case NoEntry =>
      }
      isLoading := false;
    }

    /** `login`: the user is signed in and written to storage. */
    method Login(u: User)
      modifies this
      ensures user == Some(u) && IsAuthenticated()
      ensures storage == Parses(Some(u))
      ensures isLoading == old(isLoading)
    {
      user := Some(u);
      storage := Parses(Some(u));
    }

    /** `logout`: nobody signed in, the entry removed. */
    method Logout()
      modifies this
      ensures user.None? && !IsAuthenticated()
      ensures storage == NoEntry
      ensures isLoading == old(isLoading)
    {
      user := None;
      storage := NoEntry;
    }
  }

  /** A window opened after `login(u)` finds `u` signed in. */
  method LoginSurvivesRestart(before: StoredUser, u: User) returns (signedIn: Option<User>)
    ensures signedIn == Some(u)
  {
    var first := new AuthProvider(before);
    first.Restore();
    first.Login(u);
    var second := new AuthProvider(first.storage);
    second.Restore();
    signedIn := second.user;
  }

  /** A window opened after `logout` finds nobody signed in, and so every permission refused. */
  method LogoutSurvivesRestart(before: StoredUser, u: User, permission: string) returns (signedIn: Option<User>, allowed: bool)
    ensures signedIn.None? && !allowed
  {
    var first := new AuthProvider(before);
    first.Restore();
    first.Login(u);
    first.Logout();
    var second := new AuthProvider(first.storage);
    second.Restore();
    signedIn := second.user;
    allowed := second.HasPermission(permission);
  }

  /** Text that does not parse leaves nobody signed in and is removed from storage. */
  method CorruptEntryDiscarded() returns (signedIn: Option<User>, stored: StoredUser)
    ensures signedIn.None? && stored == NoEntry
  {
    var p := new AuthProvider(Unparsable);
    p.Restore();
    signedIn := p.user;
    stored := p.storage;
  }
}
