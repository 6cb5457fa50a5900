/**
 * The admin page's access decision (frontend/admin.js): ask the server who
 * the token belongs to, fall back to the stored identity, and only when
 * the server gave nothing, to the token's own claims. Anyone not found to
 * be an admin is sent back to the main page.
 */
module AdminPage {
  import opened Wrappers
  import opened Text
  import opened Js
  import opened Jwt
  import opened Storage

  /** How the `/me` request ended: an ok answer with its parsed body, a non-ok status, or a network or parse error. */
  datatype MeAnswer = MeOk(body: Value) | MeNotOk | MeNetErr

  /**
   * `fetchMe(token)`: null without a token, on any non-ok status and on
   * any error; the parsed body otherwise.
   */
  function FetchMe(token: Value, answer: MeAnswer): (me: Value)
    ensures !Truthy(token) ==> me == Null
    ensures !answer.MeOk? ==> me == Null
    ensures Truthy(token) && answer.MeOk? ==> me == answer.body
  {
    if !Truthy(token) then Null
    else match answer
      case MeOk(body) => body
      case _ => Null
  }

  /** A rejected token and an unreachable server look the same to the page. */
  lemma RejectionLooksLikeNetworkError(token: Value)
    ensures FetchMe(token, MeNotOk) == FetchMe(token, MeNetErr) == Null
  {
  }

  /** `x && x.role === "admin"`, read as a condition. */
  predicate IsAdminRecord(v: Value)
  {
    Truthy(v) && Get(v, "role") == Str("admin")
  }

  /**
   * The claims test `payload && (payload.role === "admin" ||
   * (payload.roles && payload.roles.includes("admin")))`. None: the
   * `includes` call threw because a truthy `roles` is neither an array nor
   * a string.
   */
  function ClaimsGrant(payload: Value): (r: Option<bool>)
    ensures !Truthy(payload) ==> r == Some(false)
    ensures Truthy(payload) && Get(payload, "role") == Str("admin") ==> r == Some(true)
    ensures r.None? ==> Truthy(Get(payload, "roles")) && !Get(payload, "roles").Arr? && !Get(payload, "roles").Str?
  {
    if !Truthy(payload) then Some(false)
    else if Get(payload, "role") == Str("admin") then Some(true)
    else if !Truthy(Get(payload, "roles")) then Some(false)
    else Includes(Get(payload, "roles"), "admin")
  }

  /**
   * The claims grant access exactly when the role is "admin", or `roles`
   * is a list holding "admin", or `roles` is a string containing "admin"
   * anywhere; they throw exactly when `roles` is needed and is a truthy
   * value of another kind.
   */
  lemma ClaimsGrantIff(payload: Value)
    ensures ClaimsGrant(payload) == Some(true) <==>
      && Truthy(payload)
      && (|| Get(payload, "role") == Str("admin")
          || (Get(payload, "roles").Arr? && Str("admin") in Get(payload, "roles").items)
          || (Get(payload, "roles").Str? && Contains(Get(payload, "roles").s, "admin")))
    ensures ClaimsGrant(payload).None? <==>
      && Truthy(payload) && Get(payload, "role") != Str("admin")
      && Truthy(Get(payload, "roles")) && !Get(payload, "roles").Arr? && !Get(payload, "roles").Str?
  {
  }

  /** "admin" appears in "superadmin", so a string `roles` of that value grants access. */
  lemma SubstringRoleGrants()
    ensures ClaimsGrant(Obj(map["roles" := Str("superadmin")])) == Some(true)
  {
    var s := "superadmin";
    assert s[5..][..5] == "admin";
    assert Contains(s[5..], "admin");
    assert Contains(s[4..], "admin");
    assert Contains(s[3..], "admin");
    assert Contains(s[2..], "admin");
    assert Contains(s[1..], "admin");
  }

  /** Whether the visitor stays on the page, is sent away, or the handler stops on a TypeError. */
  datatype Gate = Granted | Denied | Crashed

  /** The outcome of the load handler's decision: the gate, the identity it ends with, and whether that identity was written to storage. */
  datatype Decision = Decision(gate: Gate, identity: Value, writes: bool)

  /**
   * The decision of the load handler, given the stored token and identity
   * and what `fetchMe` returned.
   */
  function Decide(token: Value, cached: Value, me: Value, dec: Decoders): (d: Decision)
    ensures d.gate != Granted ==> d.identity == cached && !d.writes
    ensures d.gate == Granted && !d.writes ==> d.identity == cached && IsAdminRecord(cached)
    ensures d.writes ==> d.gate == Granted && d.identity.Obj? && "role" in d.identity.fields && d.identity.fields["role"] == Str("admin")
    ensures d.gate == Crashed ==> !Truthy(me) && Truthy(token)
  {
    if IsAdminRecord(me) then
      Decision(Granted, Identity(Get(me, "username"), Get(me, "role")), true)
    else if IsAdminRecord(cached) then
      Decision(Granted, cached, false)
    else if !Truthy(me) && Truthy(token) then
      var payload := DecodeJwtPayload(token, dec);
      match ClaimsGrant(payload)
      case None => Decision(Crashed, cached, false)
      case Some(false) => Decision(Denied, cached, false)
      case Some(true) =>
        var fallback := if Truthy(cached) then Get(cached, "username") else cached;
        Decision(Granted, Identity(Or(Or(Get(payload, "username"), fallback), Str("admin")), Str("admin")), true)
    else
      Decision(Denied, cached, false)
  }

  /** Access is only ever granted with an identity whose role is "admin"; storage is only written on a grant. */
  lemma GrantedMeansAdminIdentity(token: Value, cached: Value, me: Value, dec: Decoders)
    ensures var d := Decide(token, cached, me, dec);
      (d.gate == Granted ==> IsAdminRecord(d.identity)) && (d.writes ==> d.gate == Granted)
  {
  }

  /** An admin answer from the server wins: its username and role replace whatever was stored. */
  lemma ServerAdminWins(token: Value, cached: Value, me: Value, dec: Decoders)
    requires IsAdminRecord(me)
    ensures Decide(token, cached, me, dec) == Decision(Granted, Identity(Get(me, "username"), Str("admin")), true)
  {
  }

  /**
   * A stored admin identity is enough on its own, even when the server
   * answered with a non-admin identity: that answer does not revoke it.
   */
  lemma CachedAdminKept(token: Value, cached: Value, me: Value, dec: Decoders)
    requires !IsAdminRecord(me) && IsAdminRecord(cached)
    ensures Decide(token, cached, me, dec) == Decision(Granted, cached, false)
  {
  }

  /** A non-admin answer from the server shuts out the claims: the token is not even decoded. */
  lemma ServerAnswerSkipsClaims(token: Value, cached: Value, me: Value, dec: Decoders)
    requires Truthy(me) && !IsAdminRecord(me) && !IsAdminRecord(cached)
    ensures Decide(token, cached, me, dec) == Decision(Denied, cached, false)
  {
  }

  /**
   * When the server gives nothing and the stored identity is not an admin,
   * the token's claims decide: granted exactly when they grant, crashed
   * exactly when the `includes` test throws. A grant stores the claimed
   * username (else the stored one, else "admin") with the role "admin".
   */
  lemma ClaimsDecideWithoutServer(token: Value, cached: Value, me: Value, dec: Decoders)
    requires !Truthy(me) && Truthy(token) && !IsAdminRecord(cached)
    ensures Decide(token, cached, me, dec).gate == Granted <==> ClaimsGrant(DecodeJwtPayload(token, dec)) == Some(true)
    ensures Decide(token, cached, me, dec).gate == Crashed <==> ClaimsGrant(DecodeJwtPayload(token, dec)).None?
    ensures var payload := DecodeJwtPayload(token, dec);
      var fallback := if Truthy(cached) then Get(cached, "username") else cached;
      Decide(token, cached, me, dec).gate == Granted ==>
        Decide(token, cached, me, dec) == Decision(Granted, Identity(Or(Or(Get(payload, "username"), fallback), Str("admin")), Str("admin")), true)
  {
  }

  /** Without a token only a stored admin identity opens the page. */
  lemma NoTokenOnlyCache(cached: Value, answer: MeAnswer, dec: Decoders)
    ensures Decide(Null, cached, FetchMe(Null, answer), dec).gate == Granted <==> IsAdminRecord(cached)
    ensures Decide(Null, cached, FetchMe(Null, answer), dec).gate != Crashed
  {
  }

  /** The load handler's state: the token and identity it read from storage and the `isAdmin` flag it computes. */
  class AdminGate {
    var token: Value
    var userInfo: Value
    var isAdmin: bool
    const store: Store

    constructor (store: Store)
      ensures this.store == store && token == Null && userInfo == Null && !isAdmin
    {
      this.store := store;
      token := Null;
      userInfo := Null;
      isAdmin := false;
    }

    /**
     * The `DOMContentLoaded` handler up to the redirect: read both keys,
     * call `/me` when there is a token, and follow `Decide`. A crash leaves
     * `isAdmin` false with no redirect; only a grant writes the identity.
     */
    method Load(answer: MeAnswer, dec: Decoders) returns (gate: Gate)
      modifies this, store
      ensures token == Or(old(store.GetItem(TokenKey)), Null)
      ensures var d := Decide(token, old(store.GetItem(UserKey)), FetchMe(token, answer), dec);
        && gate == d.gate
        && userInfo == d.identity
        && store.items == (if d.writes then old(store.items)[UserKey := d.identity] else old(store.items))
      ensures isAdmin <==> gate == Granted
      ensures isAdmin ==> IsAdminRecord(userInfo)
    {
      token := Or(store.GetItem(TokenKey), Null);
      userInfo := store.GetItem(UserKey);
      ghost var cached := userInfo;
      var me := Null;
      if Truthy(token) {
        me := FetchMe(token, answer);
      }
      isAdmin := false;
      if Truthy(me) && Get(me, "role") == Str("admin") {
        isAdmin := true;
        userInfo := Identity(Get(me, "username"), Get(me, "role"));
        store.SetItem(UserKey, userInfo);
      } else if Truthy(userInfo) && Get(userInfo, "role") == Str("admin") {
        isAdmin := true;
      } else if !Truthy(me) && Truthy(token) {
        var payload := DecodeJwtPayload(token, dec);
        var grant := ClaimsGrant(payload);
        if grant.None? {
          // `payload.roles.includes` is not a function: the handler stops here
          return Crashed;
        }
        if grant.value {
          isAdmin := true;
          var fallback := if Truthy(userInfo) then Get(userInfo, "username") else userInfo;
          userInfo := Identity(Or(Or(Get(payload, "username"), fallback), Str("admin")), Str("admin"));
          store.SetItem(UserKey, userInfo);
        }
      }
      GrantedMeansAdminIdentity(token, cached, me, dec);
      gate := if isAdmin then Granted else Denied;
    }

    /** The logout button: both keys removed. It exists only once access was granted. */
    method Logout()
      requires isAdmin
      modifies store
      ensures store.items == old(store.items) - {TokenKey, UserKey}
    {
      store.RemoveItem(TokenKey);
      store.RemoveItem(UserKey);
    }
  }
}
