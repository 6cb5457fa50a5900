/**
 * Token issue and the `auth_required` guard of the backend
 * (backend/main.py). PyJWT's `decode` is a parameter: it either returns
 * the claims dict or fails with the text of its exception (bad signature,
 * expired, malformed).
 */
module Auth {
  import opened Wrappers
  import opened Text
  import opened Py

  /** What an endpoint sends back: a JSON body with a status, or the server error of an unhandled exception. */
  datatype Response = Json(status: int, body: PyVal) | ServerError

  /** `jsonify({"error": msg})`. */
  function ErrorBody(msg: string): PyVal
  {
    PDict(map["error" := PStr(msg)])
  }

  /** Tokens expire eight hours after they are issued. */
  const TokenLifetime: int := 8 * 60 * 60

  /** The claims `create_jwt` signs. */
  datatype Claims = Claims(userId: string, role: PyVal, exp: int)

  /** `create_jwt(user_id, role)` at time `now`, before signing. */
  function CreateJwtClaims(userId: PyVal, role: PyVal, now: int): (c: Claims)
    requires PyStr(userId).Some?
    ensures c.userId == PyStr(userId).value
    ensures c.role == role
    ensures c.exp - now == 28800
  {
    Claims(PyStr(userId).value, role, now + TokenLifetime)
  }

  /** The claims as PyJWT's `decode` gives them back: the expiry as an integer timestamp. */
  function ClaimsDict(c: Claims): map<string, PyVal>
  {
    map["user_id" := PStr(c.userId), "role" := c.role, "exp" := PInt(c.exp)]
  }

  /** `jwt.decode` with the server's key and algorithm. */
  type Decoder = string -> Result<map<string, PyVal>, string>

  /** The guard's verdict: the handler may run with the token's user id and role, or an error status and message. */
  datatype AuthResult = Authorized(userId: PyVal, role: PyVal) | Denied(status: int, error: string)

  /** Whether a role is demanded: `role` is truthy. */
  predicate Demands(required: Option<string>)
  {
    required.Some? && required.value != ""
  }

  /**
   * What the guard makes of a decoding attempt: a failure or a missing
   * claim (a KeyError, whose text is the quoted key) gives 401; a
   * demanded role that differs gives 403.
   */
  function CheckClaims(d: Result<map<string, PyVal>, string>, required: Option<string>): (r: AuthResult)
    ensures d.Err? ==> r == Denied(401, d.error)
    ensures d.Ok? && "user_id" !in d.value ==> r == Denied(401, "'user_id'")
    ensures d.Ok? && "user_id" in d.value && "role" !in d.value ==> r == Denied(401, "'role'")
    ensures r.Authorized? <==>
      d.Ok? && "user_id" in d.value && "role" in d.value
      && (!Demands(required) || d.value["role"] == PStr(required.value))
    ensures r.Authorized? ==> r.userId == d.value["user_id"] && r.role == d.value["role"]
    ensures r == Denied(403, "Insufficient role") <==>
      d.Ok? && "user_id" in d.value && "role" in d.value
      && Demands(required) && d.value["role"] != PStr(required.value)
    ensures r.Denied? ==> r.status == 401 || r.status == 403
  {
    match d
    case Err(msg) => Denied(401, msg)
    case Ok(claims) =>
      if "user_id" !in claims then Denied(401, "'user_id'")
      else if "role" !in claims then Denied(401, "'role'")
      else if Demands(required) && claims["role"] != PStr(required.value) then Denied(403, "Insufficient role")
      else Authorized(claims["user_id"], claims["role"])
  }

  /** `auth_required(role)` applied to the request's `Authorization` header. */
  function AuthRequired(header: Option<string>, required: Option<string>, decode: Decoder): (r: AuthResult)
    ensures header.None? || !StartsWith(header.value, "Bearer ") ==> r == Denied(401, "Missing token")
    ensures r.Denied? ==> r.status == 401 || r.status == 403
  {
    if header.None? || header.value == "" || !StartsWith(header.value, "Bearer ") then Denied(401, "Missing token")
    else
      var fields := WsSplit(header.value);
      if |fields| < 2 then Denied(401, "list index out of range")
      else CheckClaims(decode(fields[1]), required)
  }

  /**
   * With the "Bearer " prefix present, the token is the first field after
   * it; without one the indexing error gives 401.
   */
  lemma BearerField(rest: string, required: Option<string>, decode: Decoder)
    ensures WsSplit(rest) == [] ==>
      AuthRequired(Some("Bearer " + rest), required, decode) == Denied(401, "list index out of range")
    ensures WsSplit(rest) != [] ==>
      AuthRequired(Some("Bearer " + rest), required, decode) == CheckClaims(decode(WsSplit(rest)[0]), required)
  {
    var h := "Bearer " + rest;
    assert h[..7] == "Bearer ";
    WsSplitBearer(rest);
  }

  /** "Bearer " followed by nothing but whitespace is refused with 401. */
  lemma BearerWithoutToken(rest: string, required: Option<string>, decode: Decoder)
    requires forall j :: 0 <= j < |rest| ==> IsPySpace(rest[j])
    ensures AuthRequired(Some("Bearer " + rest), required, decode) == Denied(401, "list index out of range")
  {
    BlankSplitsToNothing(rest);
    BearerField(rest, required, decode);
  }

  /** A string of whitespace has no fields. */
  lemma {:induction false} BlankSplitsToNothing(s: string)
    requires forall j :: 0 <= j < |s| ==> IsPySpace(s[j])
    ensures WsSplit(s) == []
  {
    BlankDrops(s);
  }

  lemma {:induction false} BlankDrops(s: string)
    requires forall j :: 0 <= j < |s| ==> IsPySpace(s[j])
    ensures DropSpaces(s) == ""
    decreases |s|
  {
    if s != "" {
      BlankDrops(s[1..]);
    }
  }

  /**
   * A token the server issued, presented while its decoding still
   * succeeds, passes the guard with its own user id and role, unless a
   * different role is demanded (403).
   */
  lemma IssuedTokenPasses(c: Claims, token: string, required: Option<string>, decode: Decoder)
    requires IsWord(token)
    requires decode(token) == Ok(ClaimsDict(c))
    ensures AuthRequired(Some("Bearer " + token), required, decode) ==
      if !Demands(required) || c.role == PStr(required.value) then Authorized(PStr(c.userId), c.role)
      else Denied(403, "Insufficient role")
  {
    WsSplitOfWord(token);
    BearerField(token, required, decode);
  }

  /** The wrapped endpoint: the handler's response on the success path, the guard's error otherwise. */
  function Guarded(header: Option<string>, required: Option<string>, decode: Decoder,
                   handler: (PyVal, PyVal) -> Response): (resp: Response)
    ensures AuthRequired(header, required, decode).Authorized? ==>
      resp == handler(AuthRequired(header, required, decode).userId, AuthRequired(header, required, decode).role)
    ensures AuthRequired(header, required, decode).Denied? ==>
      resp == Json(AuthRequired(header, required, decode).status, ErrorBody(AuthRequired(header, required, decode).error))
  {
    match AuthRequired(header, required, decode)
    case Authorized(uid, role) => handler(uid, role)
    case Denied(status, msg) => Json(status, ErrorBody(msg))
  }
}
