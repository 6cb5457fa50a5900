/**
 * The `/register` and `/login` endpoints of the backend
 * (backend/main.py) over an in-memory users collection. Each endpoint is
 * a method on the collection, specified by a pure classification of the
 * request against the documents it finds.
 */
module Users {
  import opened Wrappers
  import opened Text
  import opened Py
  import opened Auth

  /** bcrypt taken as ideal: a hash accepts exactly the password it was made from. */
  datatype Hash = Hashed(secret: string)

  /** `check_password(pw, h)`. */
  predicate CheckPassword(pw: string, h: Hash)
  {
    h.secret == pw
  }

  /** A user document; `id` is the counter its ObjectId stands for. */
  datatype UserDoc = UserDoc(id: nat, username: PyVal, email: PyVal, passwordHash: Hash,
                             role: PyVal, createdAt: int, lastLogin: PyVal, apiKeyEnc: PyVal)

  /** The ObjectId with number `n`, whose text is its decimal numeral. */
  function Oid(n: nat): PyVal
  {
    PObjectId(NatToDecimal(n))
  }

  /** Documents with different counters get different ObjectIds. */
  lemma OidInjective(m: nat, n: nat)
    requires Oid(m) == Oid(n)
    ensures m == n
  {
    DecimalInjective(m, n);
  }

  /** `request.json or {}`. */
  function RequestData(json: PyVal): PyVal
  {
    PyOr(json, PDict(map[]))
  }

  /** No two documents share a username. */
  predicate UniqueUsernames(docs: seq<UserDoc>)
  {
    forall i, j :: 0 <= i < j < |docs| ==> docs[i].username != docs[j].username
  }

  /** `find_one({"username": u})`: the position of the first document with that username. */
  function FindUser(docs: seq<UserDoc>, u: PyVal): (r: Option<nat>)
    ensures r.Some? ==> r.value < |docs| && docs[r.value].username == u
    ensures r.Some? ==> forall j :: 0 <= j < r.value ==> docs[j].username != u
    ensures r.None? <==> forall j :: 0 <= j < |docs| ==> docs[j].username != u
  {
    if |docs| == 0 then None
    else if docs[0].username == u then Some(0)
    else match FindUser(docs[1..], u)
      case None => None
      case Some(k) => Some(k + 1)
  }

  /** How `/register` treats a request body. */
  datatype RegisterCase =
    | BadBody                 // the body is not a dict: `data.get` raises
    | MissingFields
    | UsernameExists
    | BadPassword             // the password is not a string: `.encode` raises
    | Created(username: PyVal, email: PyVal, password: string, role: PyVal)

  /** `register`'s checks, in order. */
  function ClassifyRegister(docs: seq<UserDoc>, json: PyVal): (k: RegisterCase)
    ensures k == BadBody <==> !RequestData(json).PDict?
    ensures k == MissingFields <==> (
      && RequestData(json).PDict?
      && var d := RequestData(json).fields;
         !PyTruthy(DictGet(d, "username", PNone)) || !PyTruthy(DictGet(d, "password", PNone))
         || !PyTruthy(DictGet(d, "role", PNone)))
    ensures k == UsernameExists <==> (
      && RequestData(json).PDict?
      && var d := RequestData(json).fields;
         && PyTruthy(DictGet(d, "username", PNone)) && PyTruthy(DictGet(d, "password", PNone))
         && PyTruthy(DictGet(d, "role", PNone))
         && exists j :: 0 <= j < |docs| && docs[j].username == d["username"])
    ensures k == BadPassword ==> !RequestData(json).fields["password"].PStr?
    ensures k.Created? ==> (
      && RequestData(json).PDict?
      && var d := RequestData(json).fields;
         && "username" in d && "role" in d && "password" in d
         && k.username == d["username"] && PyTruthy(k.username)
         && k.role == d["role"] && PyTruthy(k.role)
         && d["password"] == PStr(k.password) && k.password != ""
         && k.email == DictGet(d, "email", PNone)
         && forall j :: 0 <= j < |docs| ==> docs[j].username != k.username)
  {
    var data := RequestData(json);
    if !data.PDict? then BadBody
    else
      var d := data.fields;
      if !PyTruthy(DictGet(d, "username", PNone)) || !PyTruthy(DictGet(d, "password", PNone))
         || !PyTruthy(DictGet(d, "role", PNone)) then MissingFields
      else if FindUser(docs, d["username"]).Some? then UsernameExists
      else if !d["password"].PStr? then BadPassword
      else Created(d["username"], DictGet(d, "email", PNone), d["password"].s, d["role"])
  }

  /** How `/login` treats a request body. */
  datatype LoginCase =
    | LoginBadBody            // the body is not a dict
    | UnknownUser
    | LoginBadPassword        // the password is not a string: `.encode` raises
    | WrongPassword
    | Authenticated(index: nat)

  /** `login`'s checks, in order; the user is looked up before the password is looked at. */
  function ClassifyLogin(docs: seq<UserDoc>, json: PyVal): (k: LoginCase)
    ensures k == LoginBadBody <==> !RequestData(json).PDict?
    ensures k == UnknownUser <==> (
      RequestData(json).PDict? && FindUser(docs, DictGet(RequestData(json).fields, "username", PNone)).None?)
    ensures k == LoginBadPassword ==> !DictGet(RequestData(json).fields, "password", PStr("")).PStr?
    ensures k == WrongPassword || k.Authenticated? ==> (
      && RequestData(json).PDict?
      && var d := RequestData(json).fields;
         var u := FindUser(docs, DictGet(d, "username", PNone));
         var pw := DictGet(d, "password", PStr(""));
         u.Some? && pw.PStr? && (k.Authenticated? <==> CheckPassword(pw.s, docs[u.value].passwordHash)))
    ensures k.Authenticated? ==> (
      k.index < |docs| && docs[k.index].username == DictGet(RequestData(json).fields, "username", PNone))
  {
    var data := RequestData(json);
    if !data.PDict? then LoginBadBody
    else
      var d := data.fields;
      match FindUser(docs, DictGet(d, "username", PNone))
      case None => UnknownUser
      case Some(i) =>
        var pw := DictGet(d, "password", PStr(""));
        if !pw.PStr? then LoginBadPassword
        else if !CheckPassword(pw.s, docs[i].passwordHash) then WrongPassword
        else Authenticated(i)
  }

  /** The document `register` inserts. */
  function NewUser(k: RegisterCase, id: nat, now: int): UserDoc
    requires k.Created?
  {
    UserDoc(id, k.username, k.email, Hashed(k.password), k.role, now, PNone, PNone)
  }

  /**
   * A user just registered can log in with the same username and
   * password, and is the document found.
   */
  lemma RegisteredUserCanLogIn(docs: seq<UserDoc>, json: PyVal, id: nat, now: int)
    requires ClassifyRegister(docs, json).Created?
    ensures var k := ClassifyRegister(docs, json);
      ClassifyLogin(docs + [NewUser(k, id, now)],
                    PDict(map["username" := k.username, "password" := PStr(k.password)]))
      == Authenticated(|docs|)
  {
    var k := ClassifyRegister(docs, json);
    var docs' := docs + [NewUser(k, id, now)];
    assert docs'[|docs|].username == k.username;
    assert forall j :: 0 <= j < |docs| ==> docs'[j] == docs[j];
  }

  /** The users collection and the counter ObjectIds are drawn from. */
  class UserCollection {
    var docs: seq<UserDoc>
    var nextId: nat

    /** Usernames are unique and ids increase and are all below the counter. */
    predicate Valid()
      reads this
    {
      && UniqueUsernames(docs)
      && (forall i :: 0 <= i < |docs| ==> docs[i].id < nextId)
      && (forall i, j :: 0 <= i < j < |docs| ==> docs[i].id < docs[j].id)
    }

    constructor ()
      ensures docs == [] && nextId == 0 && Valid()
    {
      docs := [];
      nextId := 0;
    }

    /**
     * `register`: a non-dict body or a non-string password is a server
     * error; missing fields and a taken username give 400; otherwise
     * exactly one document is appended, with the requested username and
     * role, and 201 carries its id.
     */
    method Register(json: PyVal, now: int) returns (resp: Response)
      requires Valid()
      modifies this
      ensures Valid()
      ensures var k := ClassifyRegister(old(docs), json);
        match k
        case Created(_, _, _, _) =>
          && docs == old(docs) + [NewUser(k, old(nextId), now)]
          && nextId == old(nextId) + 1
          && resp == Json(201, PDict(map["message" := PStr("User created"), "user_id" := PStr(NatToDecimal(old(nextId)))]))
        case MissingFields =>
          docs == old(docs) && nextId == old(nextId) && resp == Json(400, ErrorBody("Missing fields"))
        case UsernameExists =>
          docs == old(docs) && nextId == old(nextId) && resp == Json(400, ErrorBody("Username exists"))
        case _ =>
          docs == old(docs) && nextId == old(nextId) && resp == ServerError
    {
      var k := ClassifyRegister(docs, json);
      match k {
        case BadBody =>
          resp := ServerError;
        case MissingFields =>
          resp := Json(400, ErrorBody("Missing fields"));
        case UsernameExists =>
          resp := Json(400, ErrorBody("Username exists"));
        case BadPassword =>
          resp := ServerError;
        case Created(_, _, _, _) =>
          var id := nextId;
          docs := docs + [NewUser(k, id, now)];
          nextId := nextId + 1;
          resp := Json(201, PDict(map["message" := PStr("User created"), "user_id" := PStr(NatToDecimal(id))]));
      }
    }

    /**
     * `login`: an unknown user or a wrong password gives 401 and no token;
     * on success the token is signed over claims carrying that user's id
     * and stored role, and only that user's `last_login` changes.
     */
    method Login(json: PyVal, now: int, encode: Claims -> string) returns (resp: Response)
      requires Valid()
      modifies this
      ensures Valid()
      ensures nextId == old(nextId)
      ensures var k := ClassifyLogin(old(docs), json);
        match k
        case Authenticated(i) =>
          && docs == old(docs)[i := old(docs)[i].(lastLogin := PDate(now))]
          && resp == Json(200, PDict(map["token" := PStr(encode(CreateJwtClaims(Oid(old(docs)[i].id), old(docs)[i].role, now)))]))
        case UnknownUser =>
          docs == old(docs) && resp == Json(401, ErrorBody("Invalid credentials"))
        case WrongPassword =>
          docs == old(docs) && resp == Json(401, ErrorBody("Invalid credentials"))
        case _ =>
          docs == old(docs) && resp == ServerError
    {
      var k := ClassifyLogin(docs, json);
      match k {
        case LoginBadBody =>
          resp := ServerError;
        case UnknownUser =>
          resp := Json(401, ErrorBody("Invalid credentials"));
        case LoginBadPassword =>
          resp := ServerError;
        case WrongPassword =>
          resp := Json(401, ErrorBody("Invalid credentials"));
        case Authenticated(i) =>
          var user := docs[i];
          var claims := CreateJwtClaims(Oid(user.id), user.role, now);
          docs := docs[i := user.(lastLogin := PDate(now))];
          resp := Json(200, PDict(map["token" := PStr(encode(claims))]));
      }
    }
  }

  /**
   * A token issued at login passes the guard for as long as it decodes:
   * with the user's id, and past a demanded role exactly when that is the
   * user's stored role.
   */
  lemma LoginTokenPasses(docs: seq<UserDoc>, json: PyVal, now: int, encode: Claims -> string,
                         decode: Decoder, required: Option<string>)
    requires ClassifyLogin(docs, json).Authenticated?
    requires var u := docs[ClassifyLogin(docs, json).index];
      var c := CreateJwtClaims(Oid(u.id), u.role, now);
      IsWord(encode(c)) && decode(encode(c)) == Ok(ClaimsDict(c))
    ensures var u := docs[ClassifyLogin(docs, json).index];
      var c := CreateJwtClaims(Oid(u.id), u.role, now);
      AuthRequired(Some("Bearer " + encode(c)), required, decode) ==
        if !Demands(required) || u.role == PStr(required.value) then Authorized(PStr(NatToDecimal(u.id)), u.role)
        else Denied(403, "Insufficient role")
  {
    var u := docs[ClassifyLogin(docs, json).index];
    var c := CreateJwtClaims(Oid(u.id), u.role, now);
    IssuedTokenPasses(c, encode(c), required, decode);
  }
}
