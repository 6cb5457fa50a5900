/**
 * Session handling of the main page (frontend/main.js): the module-level
 * `token` and `userInfo`, login, start-up hydration from the token's
 * claims, logout, the `isAdmin` test, the `#admin` hash guard and the
 * registration form's checks. This page never asks the server who the
 * user is: every role it holds comes from the login answer, the decoded
 * token or storage.
 */
module MainPage {
  import opened Wrappers
  import opened Js
  import opened Jwt
  import opened Storage

  /**
   * `userInfo && userInfo.role === "admin"`, read as a condition: only an
   * object whose own `role` is the string "admin" passes.
   */
  predicate IsAdminIdentity(userInfo: Value): (b: bool)
    ensures b <==> userInfo.Obj? && "role" in userInfo.fields && userInfo.fields["role"] == Str("admin")
  {
    Truthy(userInfo) && Get(userInfo, "role") == Str("admin")
  }

  /** What the `hashchange` listener does. */
  datatype HashAction = Ignore | ShowAdmin | Redirect(to: string)

  /**
   * The `#admin` hash guard: an empty hash counts as "#inicio"; "#admin"
   * is rewritten to "#inicio" exactly when the user is not an admin; any
   * other hash is left alone.
   */
  function HashChange(hash: string, userInfo: Value): (a: HashAction)
    ensures a.Redirect? <==> hash == "#admin" && !IsAdminIdentity(userInfo)
    ensures a.Redirect? ==> a.to == "#inicio"
    ensures a.ShowAdmin? <==> hash == "#admin" && IsAdminIdentity(userInfo)
    ensures hash != "#admin" ==> a == Ignore
  {
    var h := if hash == "" then "#inicio" else hash;
    if h != "#admin" then Ignore
    else if !Truthy(userInfo) || Get(userInfo, "role") != Str("admin") then Redirect("#inicio")
    else ShowAdmin
  }

  /** Why the registration form refuses to send a request. */
  datatype RegisterError = MissingCredentials | PasswordTooShort | PasswordMismatch

  /** The body the registration form posts. */
  datatype RegisterRequest = RegisterRequest(username: string, email: string, password: string, role: string)

  /**
   * The registration form's checks, in order: an empty trimmed username or
   * an empty password first, then a password shorter than six UTF-16 code
   * units, then a confirmation that differs. Only input passing all three
   * becomes a request, always with role "user".
   */
  function ValidateRegistration(user: string, email: string, pass: string, pass2: string)
    : (r: Result<RegisterRequest, RegisterError>)
    ensures r == Err(MissingCredentials) <==> Trim(user) == "" || pass == ""
    ensures r == Err(PasswordTooShort) <==> Trim(user) != "" && pass != "" && Utf16Length(pass) < 6
    ensures r == Err(PasswordMismatch) <==> Trim(user) != "" && Utf16Length(pass) >= 6 && pass != pass2
    ensures r.Ok? <==> Trim(user) != "" && Utf16Length(pass) >= 6 && pass == pass2
    ensures r.Ok? ==> r.value == RegisterRequest(Trim(user), Trim(email), pass, "user")
  {
    var username := Trim(user);
    if username == "" || pass == "" then Err(MissingCredentials)
    else if Utf16Length(pass) < 6 then Err(PasswordTooShort)
    else if pass != pass2 then Err(PasswordMismatch)
    else Ok(RegisterRequest(username, Trim(email), pass, "user"))
  }

  /**
   * The role recorded at login: the decoded payload's role if truthy, else
   * the answer's `role`, else "user". It is never falsy.
   */
  function LoginRole(payload: Value, data: Value): (role: Value)
    requires !Nullish(data)
    ensures Truthy(role)
    ensures Truthy(payload) && Truthy(Get(payload, "role")) ==> role == Get(payload, "role")
    ensures !(Truthy(payload) && Truthy(Get(payload, "role"))) && Truthy(Get(data, "role")) ==> role == Get(data, "role")
    ensures !(Truthy(payload) && Truthy(Get(payload, "role"))) && !Truthy(Get(data, "role")) ==> role == Str("user")
  {
    if Truthy(payload) && Truthy(Get(payload, "role")) then Get(payload, "role")
    else Or(Get(data, "role"), Str("user"))
  }

  /** The start-up condition: a token, and no identity or one without a role. */
  predicate NeedsHydration(token: Value, userInfo: Value)
  {
    Truthy(token) && (!Truthy(userInfo) || !Truthy(Get(userInfo, "role")))
  }

  /**
   * The identity rebuilt from decoded claims at start-up: username from
   * `user_id`, else `username`, else "Usuario"; role from `role`, else
   * "user". Both are truthy, so the rebuilt identity never needs
   * hydrating again.
   */
  function ClaimsIdentity(payload: Value): (ui: Value)
    requires Truthy(payload)
    ensures Truthy(ui) && Truthy(Get(ui, "username")) && Truthy(Get(ui, "role"))
    ensures Truthy(Get(payload, "user_id")) ==> Get(ui, "username") == Get(payload, "user_id")
    ensures !Truthy(Get(payload, "user_id")) && Truthy(Get(payload, "username")) ==> Get(ui, "username") == Get(payload, "username")
    ensures !Truthy(Get(payload, "user_id")) && !Truthy(Get(payload, "username")) ==> Get(ui, "username") == Str("Usuario")
    ensures Get(ui, "role") == if Truthy(Get(payload, "role")) then Get(payload, "role") else Str("user")
    ensures forall t :: !NeedsHydration(t, ui)
  {
    Identity(Or(Or(Get(payload, "user_id"), Get(payload, "username")), Str("Usuario")),
             Or(Get(payload, "role"), Str("user")))
  }

  /** What the `/login` request came back with: an answer (status ok or not, and the body if it parsed) or a network error. */
  datatype LoginReply = Answered(ok: bool, body: Option<Value>) | Unreachable

  /** The body as the handler sees it: `res.json().catch(() => ({}))`. */
  function ReplyData(reply: LoginReply): Value
    requires reply.Answered?
  {
    match reply.body
    case None => Obj(map[])
    case Some(v) => v
  }

  /**
   * How a login attempt ends: the form was incomplete, the server refused
   * or sent no token, the request or the handling of its answer threw, or
   * the session was established.
   */
  datatype LoginOutcome = Incomplete | Refused | Failed | LoggedIn

  /** The tab's session: the module-level `token` and `userInfo`, and the storage they are saved in. */
  class Session {
    var token: Value
    var userInfo: Value
    const store: Store

    /** The module's start-up: `token` and `userInfo` read back from storage, null when absent. */
    constructor (store: Store)
      ensures this.store == store
      ensures token == Or(store.GetItem(TokenKey), Null)
      ensures userInfo == store.GetItem(UserKey)
    {
      this.store := store;
      token := Or(store.GetItem(TokenKey), Null);
      userInfo := store.GetItem(UserKey);
    }

    /** `isAdmin()`. */
    predicate IsAdmin(): (b: bool)
      reads this
      ensures b <==> userInfo.Obj? && "role" in userInfo.fields && userInfo.fields["role"] == Str("admin")
    {
      IsAdminIdentity(userInfo)
    }

    /**
     * The login form's submit handler. Incomplete input sends nothing; a
     * network error, a null body, a non-ok answer or a missing token leave
     * the session as it was. On success `token` is the answer's token,
     * `userInfo` is the typed (trimmed) username with the role from
     * `LoginRole`, and both storage keys are written.
     */
    method Login(rawUsername: string, password: string, reply: LoginReply, dec: Decoders)
      returns (outcome: LoginOutcome)
      modifies this, store
      ensures outcome == Incomplete <==> Trim(rawUsername) == "" || password == ""
      ensures outcome == LoggedIn <==>
        && Trim(rawUsername) != "" && password != ""
        && reply.Answered? && reply.ok && !Nullish(ReplyData(reply))
        && Truthy(Get(ReplyData(reply), "token"))
      ensures outcome == LoggedIn ==>
        && token == Get(ReplyData(reply), "token")
        && userInfo == Identity(Str(Trim(rawUsername)), LoginRole(ParseJwt(token, dec), ReplyData(reply)))
        && store.items == old(store.items)[TokenKey := Str(ToJsString(token))][UserKey := userInfo]
        && (IsAdmin() <==> LoginRole(ParseJwt(token, dec), ReplyData(reply)) == Str("admin"))
      ensures outcome != LoggedIn ==>
        token == old(token) && userInfo == old(userInfo) && store.items == old(store.items)
    {
      var username := Trim(rawUsername);
      if username == "" || password == "" {
        return Incomplete;
      }
      if reply.Unreachable? {
        return Failed;
      }
      var data := ReplyData(reply);
      if Nullish(data) {
        // reading `data.error` or `data.token` of a null body throws; the handler catches it
        return Failed;
      }
      if !reply.ok || !Truthy(Get(data, "token")) {
        return Refused;
      }
      token := Get(data, "token");
      var payload := ParseJwt(token, dec);
      var role := LoginRole(payload, data);
      userInfo := Identity(Str(username), role);
      store.SetItem(TokenKey, Str(ToJsString(token)));
      store.SetItem(UserKey, userInfo);
      return LoggedIn;
    }

    /**
     * Start-up hydration: `token` and `userInfo` are read back from storage
     * (falling back to the current values), and when there is a token but
     * no identity with a role, a successfully decoded payload supplies one,
     * which is stored. The token entry is never touched.
     */
    method Hydrate(dec: Decoders)
      modifies this, store
      ensures token == Or(old(store.GetItem(TokenKey)), old(token))
      ensures var cached := if UserKey in old(store.items) then old(store.items)[UserKey] else old(userInfo);
        if NeedsHydration(token, cached) && Truthy(ParseJwt(token, dec))
        then userInfo == ClaimsIdentity(ParseJwt(token, dec)) && store.items == old(store.items)[UserKey := userInfo]
        else userInfo == cached && store.items == old(store.items)
      ensures NeedsHydration(token, userInfo) ==> !Truthy(ParseJwt(token, dec))
    {
      token := Or(store.GetItem(TokenKey), token);
      userInfo := if UserKey in store.items then store.items[UserKey] else userInfo;
      if NeedsHydration(token, userInfo) {
        var payload := ParseJwt(token, dec);
        if Truthy(payload) {
          userInfo := ClaimsIdentity(payload);
          store.SetItem(UserKey, userInfo);
        }
      }
    }

    /** The logout button: both variables cleared and both storage keys removed. */
    method Logout()
      modifies this, store
      ensures token == Null && userInfo == Null
      ensures store.items == old(store.items) - {TokenKey, UserKey}
      ensures !IsAdmin()
    {
      token := Null;
      userInfo := Null;
      store.RemoveItem(TokenKey);
      store.RemoveItem(UserKey);
    }
  }
}
