/** The user endpoints: login with its cookie, auto-login, lookup and owner-only deletion. */
module UserController {
  import opened Values
  import opened Entities
  import opened Http

  /** The cookie lifetime, one day in milliseconds. */
  const OneDayMs: int := 1 * 24 * 60 * 60 * 1000

  const UserNotFound := "User not found"
  const OwnerOnlyDeletion := "User deletion is only restricted to the account owner"
  const UserDeletedMessage := "User deleted successfully"
  const AuthenticateError := "An error occurred while authenticating user; please try again later"
  const GetUserError := "An error occurred while getting user; please try again later"
  const DeleteUserError := "An error occurred while deleting user; please try again later"

  /** The session cookie set at login: the token, expiring one day after `now` (milliseconds). */
  function AuthCookie(token: string, now: int): (c: Cookie)
    ensures c.expires - now == 86_400_000
    ensures c.httpOnly && c.secure && c.sameSite == "lax" && c.priority == "high"
    ensures c.name == "token" && c.value == token
  {
    Cookie("token", token, true, now + OneDayMs, true, "high", "lax")
  }

  /**
   * `authenticateUser`: authenticate, then sign a token; on success 200 `{user, token}` with the
   * session cookie, and 500 when either step throws. A null user is still handed to the token
   * helper, and then reading its `pi_uid` for the log throws, so it ends in 500 as well.
   * `now` stands for `Date.now()`.
   */
  function AuthenticateUser(piUser: Option<PiUser>, now: int,
                            authenticate: Option<PiUser> -> Outcome<Option<User>>,
                            generateUserToken: Option<User> -> Outcome<string>): (h: Handled)
    ensures Consistent(h)
    ensures |h.calls| >= 1 && h.calls[0] == AuthenticateCall(piUser)
    ensures authenticate(piUser).Returned? ==>
              h.calls == [AuthenticateCall(piUser), GenerateUserTokenCall(authenticate(piUser).value)]
    ensures h.response.status == 200 <==>
              && authenticate(piUser).Returned?
              && authenticate(piUser).value.Some?
              && generateUserToken(authenticate(piUser).value).Returned?
    ensures h.response.status == 200 ==>
              var user := authenticate(piUser).value.value;
              var token := generateUserToken(Some(user)).value;
              && h.response.body == Authenticated(user, token)
              && h.response.cookie == Some(AuthCookie(token, now))
    ensures h.response.status != 200 ==> h.response.status == 500 && h.response.cookie.None?
  {
    var first := AuthenticateCall(piUser);
    match authenticate(piUser)
    case Threw(_) => Handled(Reply(500, Message(AuthenticateError)), [first])
    case Returned(user) =>
      var calls := [first, GenerateUserTokenCall(user)];
      match generateUserToken(user)
      case Threw(_) => Handled(Reply(500, Message(AuthenticateError)), calls)
      case Returned(token) =>
        if user.None? then Handled(Reply(500, Message(AuthenticateError)), calls)
        else Handled(Response(200, Authenticated(user.value, token), Some(AuthCookie(token, now))), calls)
  }

  /** `autoLoginUser`: always 200 with the current user, even when there is none. */
  function AutoLoginUser(currentUser: Option<User>): (h: Handled)
    ensures Consistent(h)
    ensures h == Handled(Reply(200, CurrentUser(currentUser)), [])
  {
    Handled(Reply(200, CurrentUser(currentUser)), [])
  }

  /** `getUser`: 404 when the user is null, 200 with the user otherwise. */
  function GetUser(pi_uid: string, getUser: string -> Outcome<Option<User>>): (h: Handled)
    ensures Consistent(h)
    ensures h.calls == [GetUserCall(pi_uid)]
    ensures var found := getUser(pi_uid);
            && (h.response.status == 500 <==> found.Threw?)
            && (h.response.status == 404 <==> found == Returned(None))
            && (h.response.status == 404 ==> h.response.body == Message(UserNotFound))
            && (h.response.status == 200 ==> found.Returned? && found.value.Some? && h.response.body == UserRecord(found.value.value))
  {
    var calls := [GetUserCall(pi_uid)];
    match getUser(pi_uid)
    case Threw(_) => Handled(Reply(500, Message(GetUserError)), calls)
    case Returned(None) => Handled(Reply(404, Message(UserNotFound)), calls)
    case Returned(Some(user)) => Handled(Reply(200, UserRecord(user)), calls)
  }

  /** `currentUser?.pi_uid !== pi_uid`: with no current user the left side is `undefined`. */
  predicate IsOwner(currentUser: Option<User>, pi_uid: string)
  {
    currentUser.Some? && currentUser.value.pi_uid == pi_uid
  }

  /** `deleteUser`: 403 without any call unless the requester owns the account. */
  function DeleteUser(pi_uid: string, currentUser: Option<User>, deleteUser: string -> Outcome<DeletedData>): (h: Handled)
    ensures Consistent(h)
    ensures !IsOwner(currentUser, pi_uid) ==> h == Handled(Reply(403, Message(OwnerOnlyDeletion)), [])
    ensures IsOwner(currentUser, pi_uid) ==>
              && h.calls == [DeleteUserCall(pi_uid)]
              && (deleteUser(pi_uid).Returned? ==> h.response == Reply(200, UserDeleted(UserDeletedMessage, deleteUser(pi_uid).value)))
              && (deleteUser(pi_uid).Threw? ==> h.response.status == 500)
  {
    if !IsOwner(currentUser, pi_uid) then Handled(Reply(403, Message(OwnerOnlyDeletion)), [])
    else
      var calls := [DeleteUserCall(pi_uid)];
      match deleteUser(pi_uid)
      case Threw(_) => Handled(Reply(500, Message(DeleteUserError)), calls)
      case Returned(deleted) => Handled(Reply(200, UserDeleted(UserDeletedMessage, deleted)), calls)
  }

  /** The delete service is only ever asked to delete the requester's own account. */
  lemma DeleteOnlyOwnAccount(pi_uid: string, currentUser: Option<User>, deleteUser: string -> Outcome<DeletedData>)
    ensures var h := DeleteUser(pi_uid, currentUser, deleteUser);
            forall k :: 0 <= k < |h.calls| ==>
              h.calls[k].DeleteUserCall? && currentUser.Some? && h.calls[k].pi_uid == currentUser.value.pi_uid
  {
  }
}
