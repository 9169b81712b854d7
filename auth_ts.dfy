/**
 * The typed authentication helpers of the newer client
 * (workspace/src/utils/auth.ts): a module-level current user, two level
 * tests, and a login that is not implemented yet.
 */
module WorkspaceAuth {
  import opened Schema

  /** `User`: `id` and `full_name` are optional. */
  datatype User = User(id: Option<string>, username: string, fullName: Option<string>, nivel: int)

  /** `LoginCredentials`. */
  datatype LoginCredentials = LoginCredentials(username: string, password: string)

  /** `user?.nivel` is truthy: there is a user and its level is not 0. */
  predicate NivelTruthy(user: Option<User>)
  {
    user.Some? && user.value.nivel != 0
  }

  /** `isAdmin(user)`. */
  function IsAdmin(user: Option<User>): (b: bool)
    ensures b <==> user.Some? && user.value.nivel >= 1
    ensures user.None? ==> !b
  {
    if NivelTruthy(user) then user.value.nivel >= 1 else false
  }

  /** `isSuperAdmin(user)`. */
  function IsSuperAdmin(user: Option<User>): (b: bool)
    ensures b <==> user.Some? && user.value.nivel >= 2
  {
    if NivelTruthy(user) then user.value.nivel >= 2 else false
  }

  /** Every super administrator is an administrator, and level 1 is an administrator but not a super one. */
  lemma SuperAdminIsAdmin(user: Option<User>)
    ensures IsSuperAdmin(user) ==> IsAdmin(user)
    ensures user.Some? && user.value.nivel == 1 ==> IsAdmin(user) && !IsSuperAdmin(user)
  {
  }

  /** The module's `let currentUser`. */
  class AuthState {
    var currentUser: Option<User>

    constructor ()
      ensures currentUser == None
    {
      currentUser := None;
    }

    /** `getCurrentUser()`. */
    function GetCurrentUser(): (u: Option<User>)
      reads this
      ensures u == currentUser
    {
      currentUser
    }

    /** `setCurrentUser(user)`: the next `getCurrentUser()` returns `user`. */
    method SetCurrentUser(user: Option<User>)
      modifies this
      ensures GetCurrentUser() == user
    {
      currentUser := user;
    }

    /** `logout()`: no current user afterwards, so no admin rights either. */
    method Logout()
      modifies this
      ensures GetCurrentUser() == None
      ensures !IsAdmin(GetCurrentUser()) && !IsSuperAdmin(GetCurrentUser())
    {
      currentUser := None;
    }

    /** `login(credentials)`: not implemented; always resolves to null and leaves the state alone. */
    method Login(credentials: LoginCredentials) returns (user: Option<User>)
      ensures user.None?
    {
      return None;
    }
  }
}
