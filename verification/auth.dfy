/**
  The decision procedures of `WebSocketAuth` (ws-client-auth/auth-middleware.js):
  token, session and bearer-JWT authentication, session-id extraction from the
  query string or the `Cookie` header, and the session store's creation and
  expiry cleanup. Each callback outcome is a `Result`; the clock is a parameter.
 */
module Auth {
  import opened Wrappers
  import opened JsStrings

  /** A client record as stored in a token table or a session. */
  datatype Client = Client(id: string, name: string, role: string)

  /** The errors the validators hand to their callback. */
  datatype AuthError =
    | MissingCredentials
    | InvalidToken
    | UsernameMismatch
    | NoSessionId
    | InvalidOrExpiredSession
    | NoJwtToken
    | InvalidJwtToken
  {
    function Message(): string
    {
      match this
      case MissingCredentials => "Missing token or username parameter"
      case InvalidToken => "Invalid token"
      case UsernameMismatch => "Username does not match token"
      case NoSessionId => "No session ID provided"
      case InvalidOrExpiredSession => "Invalid or expired session"
      case NoJwtToken => "No JWT token provided"
      case InvalidJwtToken => "Invalid JWT token"
    }
  }

  /**
    What the validators read from an upgrade request: the query parameters
    (the first value of each name, already decoded) and two headers.
   */
  datatype Request = Request(query: map<string, string>, cookie: Option<string>, authorization: Option<string>)

  /** `url.searchParams.get(name)`. */
  function Param(req: Request, name: string): Option<string>
  {
    if name in req.query then Some(req.query[name]) else None
  }

  /** The token table: token to the client it stands for. */
  type TokenTable = map<string, Client>

  // ===== token authentication =====

  /**
    The token check shared by `authenticateByToken` and the server's
    `authenticate`. Both values must be present and non-empty before the table
    is consulted; the token must be a key of the table and its entry's name
    must equal the user name; success hands back exactly that entry.
   */
  function CheckToken(table: TokenTable, token: Option<string>, username: Option<string>): (r: Result<Client, AuthError>)
    ensures !Truthy(token) || !Truthy(username) ==> r == Failure(MissingCredentials)
    ensures Truthy(token) && Truthy(username) && token.value !in table ==> r == Failure(InvalidToken)
    ensures Truthy(token) && Truthy(username) && token.value in table && table[token.value].name != username.value ==>
      r == Failure(UsernameMismatch)
    ensures r.Success? <==>
      Truthy(token) && Truthy(username) && token.value in table && table[token.value].name == username.value
    ensures r.Success? ==> r.value == table[token.value] && r.value.name == username.value
  {
    if !Truthy(token) || !Truthy(username) then Failure(MissingCredentials)
    else if token.value !in table then Failure(InvalidToken)
    else if table[token.value].name != username.value then Failure(UsernameMismatch)
    else Success(table[token.value])
  }

  /** `authenticateByToken`: the token check on the `token` and `username` query parameters. */
  function AuthenticateByToken(table: TokenTable, req: Request): (r: Result<Client, AuthError>)
    ensures r.Success? <==>
      && "token" in req.query && "username" in req.query
      && req.query["token"] != "" && req.query["username"] != ""
      && req.query["token"] in table
      && table[req.query["token"]].name == req.query["username"]
    ensures r.Success? ==> r.value == table[req.query["token"]]
  {
    CheckToken(table, Param(req, "token"), Param(req, "username"))
  }

  // ----- the token lookup as written -----

  /**
    The result of `table[key]` on a plain JavaScript object: an own entry,
    a member inherited from `Object.prototype` (with its `.name`, which the
    `__proto__` accessor's result lacks), or `undefined`.
   */
  datatype Lookup = Own(client: Client) | Inherited(name: Option<string>) | Missing
  {
    function Name(): Option<string>
    {
      match this
      case Own(c) => Some(c.name)
      case Inherited(n) => n
      case Missing => None
    }
  }

  /** The methods of `Object.prototype`; each function's `.name` is its key. */
  const PrototypeMethods: set<string> := {
    "__defineGetter__", "__defineSetter__", "hasOwnProperty", "__lookupGetter__",
    "__lookupSetter__", "isPrototypeOf", "propertyIsEnumerable", "toString",
    "valueOf", "toLocaleString"
  }

  /** Property lookup on a plain object: own keys first, then `Object.prototype`. */
  function LookupAsWritten(table: TokenTable, key: string): (r: Lookup)
    ensures key in table ==> r == Own(table[key])
    ensures r.Missing? <==> key !in table && key !in PrototypeMethods && key != "constructor" && key != "__proto__"
  {
    if key in table then Own(table[key])
    else if key == "__proto__" then Inherited(None)
    else if key == "constructor" then Inherited(Some("Object"))
    else if key in PrototypeMethods then Inherited(Some(key))
    else Missing
  }

  /**
    The token check exactly as written: `!client` is false for anything the
    lookup finds, inherited members included, and `client.name` is compared
    with the user name whatever `client` is.
   */
  function CheckTokenAsWritten(table: TokenTable, token: Option<string>, username: Option<string>): (r: Result<Lookup, AuthError>)
    ensures !Truthy(token) || !Truthy(username) ==> r == Failure(MissingCredentials)
    ensures r.Success? ==> r.value.Name() == username
  {
    if !Truthy(token) || !Truthy(username) then Failure(MissingCredentials)
    else
      var found := LookupAsWritten(table, token.value);
      if found.Missing? then Failure(InvalidToken)
      else if found.Name() != username then Failure(UsernameMismatch)
      else Success(found)
  }

  /**
    The check as written accepts a token that is no key of the table: the name
    of an `Object.prototype` method, given as both token and user name (or
    `constructor` with user name `Object`). The corrected check refuses both.
   */
  lemma PrototypeTokenAccepted(table: TokenTable)
    requires "toString" !in table && "constructor" !in table
    ensures CheckTokenAsWritten(table, Some("toString"), Some("toString")) == Success(Inherited(Some("toString")))
    ensures CheckTokenAsWritten(table, Some("constructor"), Some("Object")) == Success(Inherited(Some("Object")))
    ensures CheckToken(table, Some("toString"), Some("toString")) == Failure(InvalidToken)
    ensures CheckToken(table, Some("constructor"), Some("Object")) == Failure(InvalidToken)
  {
  }

  /** Away from the inherited names the check as written and the corrected one agree. */
  lemma CheckTokenAgreesOnOwnKeys(table: TokenTable, token: Option<string>, username: Option<string>)
    requires token.Some? ==> token.value !in PrototypeMethods && token.value != "constructor" && token.value != "__proto__"
    ensures CheckTokenAsWritten(table, token, username) == match CheckToken(table, token, username)
      case Success(c) => Success(Own(c))
      case Failure(e) => Failure(e)
  {
  }

  // ===== session-id extraction =====

  /**
    The JavaScript values `extractSessionId` can return. Unlike the
    `Option`-valued properties elsewhere, `null` and `undefined` are kept apart
    here: `null` means neither source was present, while `undefined` is what a
    present `Cookie` header without a `sessionId` entry yields.
   */
  datatype JsValue = Null | Undefined | Str(value: string)

  /** Truthiness of such a value; both `null` and `undefined` are falsy, like `Wrappers.Truthy` on `None`. */
  predicate JsTruthy(v: JsValue)
  {
    v.Str? && v.value != ""
  }

  /** One cookie's key: the trimmed cookie up to its first `=`, or all of it when there is none. */
  function CookieKey(cookie: string): (k: string)
    ensures '=' !in k
    ensures var t := Trim(cookie); |k| <= |t| && t[..|k|] == k && (|k| < |t| ==> t[|k|] == '=')
  {
    SplitFirst(Trim(cookie), '=');
    Split(Trim(cookie), '=')[0]
  }

  /**
    One cookie's value: `undefined` when the trimmed cookie has no `=`;
    otherwise the text after the first `=` up to the next `=` (so `a=b=c`
    gives `b`) or the end.
   */
  function CookieValue(cookie: string): (v: JsValue)
    ensures v.Str? <==> '=' in Trim(cookie)
    ensures v.Str? ==> (
      SplitFirst(Trim(cookie), '=');
      var rest := Trim(cookie)[|CookieKey(cookie)| + 1..];
      && '=' !in v.value
      && |v.value| <= |rest|
      && rest[..|v.value|] == v.value
      && (|v.value| < |rest| ==> rest[|v.value|] == '='))
  {
    FieldAfterKey(Trim(cookie))
  }

  /** The second `=`-separated field of an already trimmed cookie, `undefined` when there is none. */
  function FieldAfterKey(t: string): (v: JsValue)
    ensures v.Str? <==> '=' in t
    ensures v.Str? ==> (
      SplitFirst(t, '=');
      var rest := t[|Split(t, '=')[0]| + 1..];
      && '=' !in v.value
      && |v.value| <= |rest|
      && rest[..|v.value|] == v.value
      && (|v.value| < |rest| ==> rest[|v.value|] == '='))
  {
    var pieces := Split(t, '=');
    SplitFirst(t, '=');
    if |pieces| >= 2 then
      var rest := t[|pieces[0]| + 1..];
      SplitFirst(rest, '=');
      assert pieces[1] == Split(rest, '=')[0];
      Str(pieces[1])
    else Undefined
  }

  /** The `reduce` over the cookies: each one assigns its key, so a later duplicate overwrites. */
  function CollectCookies(acc: map<string, JsValue>, cookies: seq<string>): (m: map<string, JsValue>)
    ensures forall k | k in m :: k in acc || exists i | 0 <= i < |cookies| :: CookieKey(cookies[i]) == k
    ensures (forall k | k in acc :: !acc[k].Null?) ==> forall k | k in m :: !m[k].Null?
    decreases |cookies|
  {
    if |cookies| == 0 then acc
    else CollectCookies(acc[CookieKey(cookies[0]) := CookieValue(cookies[0])], cookies[1..])
  }

  /** The cookie object built from a `Cookie` header split on `;`. */
  function ParseCookies(header: string): (m: map<string, JsValue>)
    ensures forall k | k in m :: !m[k].Null?
  {
    CollectCookies(map[], Split(header, ';'))
  }

  /** Reading a property of the cookie object: a key never assigned reads as `undefined`. */
  function CookieField(cookies: map<string, JsValue>, key: string): JsValue
  {
    if key in cookies then cookies[key] else Undefined
  }

  /** The key of every cookie, in order. */
  function Keys(cookies: seq<string>): (keys: seq<string>)
    ensures |keys| == |cookies|
    decreases |cookies|
  {
    if |cookies| == 0 then [] else [CookieKey(cookies[0])] + Keys(cookies[1..])
  }

  /** Cookies that never mention a key leave that key's entry alone. */
  lemma {:induction false} CollectKeeps(acc: map<string, JsValue>, cookies: seq<string>, k: string)
    requires k !in Keys(cookies)
    ensures k in CollectCookies(acc, cookies) <==> k in acc
    ensures k in acc ==> CollectCookies(acc, cookies)[k] == acc[k]
    decreases |cookies|
  {
    if |cookies| > 0 {
      CollectKeeps(acc[CookieKey(cookies[0]) := CookieValue(cookies[0])], cookies[1..], k);
    }
  }

  /** The position of the last occurrence of `k`, if any. */
  function LastIndex(keys: seq<string>, k: string): (r: Option<nat>)
    ensures r.None? ==> k !in keys
    ensures r.Some? ==> r.value < |keys| && keys[r.value] == k && k !in keys[r.value + 1..]
    decreases |keys|
  {
    if |keys| == 0 then None
    else if keys[|keys| - 1] == k then Some(|keys| - 1)
    else
      var r := LastIndex(keys[..|keys| - 1], k);
      assert r.Some? ==> keys[r.value + 1..] == keys[..|keys| - 1][r.value + 1..] + [keys[|keys| - 1]];
      r
  }

  /** Any occurrence of `k` with no later one is the one `LastIndex` finds. */
  lemma {:induction false} LastIndexIsLast(keys: seq<string>, k: string, i: nat)
    requires i < |keys| && keys[i] == k && k !in keys[i + 1..]
    ensures LastIndex(keys, k) == Some(i)
    decreases |keys|
  {
    var n := |keys|;
    if i < n - 1 {
      assert keys[n - 1] in keys[i + 1..];
      var front := keys[..n - 1];
      assert front[i + 1..] == keys[i + 1..n - 1];
      LastIndexIsLast(front, k, i);
    }
  }

  /**
    The reduce leaves a key alone when no cookie carries it, and otherwise
    gives it the value of the last cookie that does.
   */
  lemma {:induction false} CollectLastWins(acc: map<string, JsValue>, cookies: seq<string>, k: string)
    ensures LastIndex(Keys(cookies), k).None? ==>
      && (k in CollectCookies(acc, cookies) <==> k in acc)
      && (k in acc ==> CollectCookies(acc, cookies)[k] == acc[k])
    ensures LastIndex(Keys(cookies), k).Some? ==>
      && k in CollectCookies(acc, cookies)
      && CollectCookies(acc, cookies)[k] == CookieValue(cookies[LastIndex(Keys(cookies), k).value])
    decreases |cookies|
  {
    var keys := Keys(cookies);
    var last := LastIndex(keys, k);
    if last.None? {
      CollectKeeps(acc, cookies, k);
    } else {
      var i := last.value;
      var acc' := acc[CookieKey(cookies[0]) := CookieValue(cookies[0])];
      var rest := cookies[1..];
      assert Keys(rest) == keys[1..];
      if i == 0 {
        CollectKeeps(acc', rest, k);
      } else {
        assert keys[1..][i - 1] == k && keys[1..][i..] == keys[i + 1..];
        LastIndexIsLast(keys[1..], k, i - 1);
        CollectLastWins(acc', rest, k);
      }
    }
  }

  /**
    Reading key `k` of the cookie object of a `Cookie` header: `undefined` when
    no cookie carries `k`, otherwise the value of the LAST cookie carrying it,
    so a later duplicate overwrites an earlier one.
   */
  lemma CookieLastWins(header: string, k: string)
    ensures var cookies := Split(header, ';');
      CookieField(ParseCookies(header), k)
        == match LastIndex(Keys(cookies), k)
           case None => Undefined
           case Some(i) => CookieValue(cookies[i])
  {
    CollectLastWins(map[], Split(header, ';'), k);
  }

  /**
    `extractSessionId`: a truthy `sessionId` query parameter wins; otherwise a
    truthy `Cookie` header is parsed and its `sessionId` entry returned (which
    may be `undefined`); `null` only when neither is there.
   */
  function ExtractSessionId(req: Request): (r: JsValue)
    ensures Truthy(Param(req, "sessionId")) ==> r == Str(req.query["sessionId"])
    ensures r.Null? <==> !Truthy(Param(req, "sessionId")) && !Truthy(req.cookie)
    ensures !Truthy(Param(req, "sessionId")) && Truthy(req.cookie) ==>
      r == CookieField(ParseCookies(req.cookie.value), "sessionId")
  {
    var fromQuery := Param(req, "sessionId");
    if Truthy(fromQuery) then Str(fromQuery.value)
    else if Truthy(req.cookie) then CookieField(ParseCookies(req.cookie.value), "sessionId")
    else Null
  }

  // ===== sessions =====

  datatype Session = Session(user: Client, expires: int, createdAt: int)

  type SessionStore = map<string, Session>

  /** The lifetime `createSession` gives a session unless told otherwise: one hour in milliseconds. */
  const DefaultExpiresIn: int := 3600000

  /**
    `authenticateBySession`: needs a truthy session id, a stored session under
    it and `expires` not before `now`; a session expiring exactly at `now` is
    still accepted. Success hands back the session's user.
   */
  function AuthenticateBySession(store: SessionStore, req: Request, now: int): (r: Result<Client, AuthError>)
    ensures !JsTruthy(ExtractSessionId(req)) ==> r == Failure(NoSessionId)
    ensures r.Success? <==>
      var sid := ExtractSessionId(req);
      JsTruthy(sid) && sid.value in store && now <= store[sid.value].expires
    ensures r.Success? ==> r.value == store[ExtractSessionId(req).value].user
    ensures JsTruthy(ExtractSessionId(req)) && r.Failure? ==> r.error == InvalidOrExpiredSession
  {
    var sid := ExtractSessionId(req);
    if !JsTruthy(sid) then Failure(NoSessionId)
    else if sid.value !in store || store[sid.value].expires < now then Failure(InvalidOrExpiredSession)
    else Success(store[sid.value].user)
  }

  datatype Created = Created(store: SessionStore, sessionId: string)

  /**
    `createSession`: stores `user` under the given id (the generated one; no
    collision check, so an existing entry is overwritten) with
    `expires = clock + expiresIn`; `createdAt` is a second clock reading.
   */
  function CreateSession(store: SessionStore, user: Client, sessionId: string, clock: int, createdAt: int,
                         expiresIn: int := DefaultExpiresIn): (r: Created)
    ensures r.sessionId == sessionId
    ensures r.store.Keys == store.Keys + {sessionId}
    ensures r.store[sessionId].user == user && r.store[sessionId].expires == clock + expiresIn
    ensures forall other | other in store && other != sessionId :: r.store[other] == store[other]
  {
    Created(store[sessionId := Session(user, clock + expiresIn, createdAt)], sessionId)
  }

  /** A created session authenticates its user until its expiry instant, inclusive, and not after. */
  lemma CreateThenAuthenticate(store: SessionStore, user: Client, sessionId: string, clock: int, createdAt: int,
                               expiresIn: int, query: map<string, string>, cookie: Option<string>, now: int)
    requires sessionId != ""
    ensures var c := CreateSession(store, user, sessionId, clock, createdAt, expiresIn);
      var req := Request(query["sessionId" := c.sessionId], cookie, None);
      AuthenticateBySession(c.store, req, now) == if now <= clock + expiresIn then Success(user) else Failure(InvalidOrExpiredSession)
  {
  }

  /** The sessions that survive a cleanup at `now`: those whose expiry is not before `now`, unchanged. */
  function Unexpired(store: SessionStore, now: int): (kept: SessionStore)
    ensures forall id :: id in kept <==> id in store && now <= store[id].expires
    ensures forall id | id in kept :: kept[id] == store[id]
  {
    map id | id in store && now <= store[id].expires :: store[id]
  }

  /**
    `cleanupExpiredSessions`: visits every entry and deletes those with
    `expires < now`, leaving the others untouched.
   */
  method CleanupExpiredSessions(store: SessionStore, now: int) returns (kept: SessionStore)
    ensures forall id :: id in kept <==> id in store && now <= store[id].expires
    ensures forall id | id in kept :: kept[id] == store[id]
    ensures kept == Unexpired(store, now)
  {
    kept := store;
    var pending := store.Keys;
    while pending != {}
      invariant pending <= store.Keys
      invariant forall id :: id in kept <==> id in store && (id in pending || now <= store[id].expires)
      invariant forall id | id in kept :: kept[id] == store[id]
      decreases pending
    {
      var id :| id in pending;
      if store[id].expires < now {
        kept := kept - {id};
      }
      pending := pending - {id};
    }
  }

  /** Cleaning up twice at the same instant removes nothing more. */
  lemma CleanupIdempotent(store: SessionStore, now: int)
    ensures Unexpired(Unexpired(store, now), now) == Unexpired(store, now)
  {
  }

  /** A cleanup at `now` never changes what session authentication decides at `now`. */
  lemma CleanupKeepsSessionDecisions(store: SessionStore, req: Request, now: int)
    ensures AuthenticateBySession(Unexpired(store, now), req, now) == AuthenticateBySession(store, req, now)
  {
  }

  // ===== bearer JWT =====

  /** The claims a JWT payload may carry; `None` is a missing claim. */
  datatype Claims = Claims(sub: Option<string>, name: Option<string>, role: Option<string>, exp: Option<int>)

  /** What `decodeJWT` returns: the claims renamed, `exp` passed through unchecked. */
  datatype JwtUser = JwtUser(id: Option<string>, name: Option<string>, role: Option<string>, exp: Option<int>)

  const BearerPrefix := "Bearer "

  /**
    `decodeJWT`, shape check only: the token must split into exactly three
    `.`-separated parts, that is hold exactly two dots; the middle part goes to
    `decodePayload`, which stands for base64 decoding and `JSON.parse` and is
    `None` where those throw.
   */
  function DecodeJwt(token: string, decodePayload: string -> Option<Claims>): (r: Option<JwtUser>)
    ensures r.Some? <==> Count(token, '.') == 2 && decodePayload(Split(token, '.')[1]).Some?
    ensures r.Some? ==> var c := decodePayload(Split(token, '.')[1]).value;
      r.value == JwtUser(c.sub, c.name, c.role, c.exp)
  {
    var parts := Split(token, '.');
    if |parts| != 3 then None
    else
      match decodePayload(parts[1])
      case None => None
      case Some(c) => Some(JwtUser(c.sub, c.name, c.role, c.exp))
  }

  /**
    `authenticateByJWT`: the `Authorization` header must start with `Bearer `;
    the token is what follows those seven characters; any decoding failure is
    reported as an invalid token. The expiry claim is never compared with a clock.
   */
  function AuthenticateByJwt(req: Request, decodePayload: string -> Option<Claims>): (r: Result<JwtUser, AuthError>)
    ensures req.authorization.None? || !StartsWith(req.authorization.value, BearerPrefix) ==> r == Failure(NoJwtToken)
    ensures r.Success? <==>
      && req.authorization.Some? && StartsWith(req.authorization.value, BearerPrefix)
      && DecodeJwt(req.authorization.value[7..], decodePayload).Some?
    ensures r.Failure? && req.authorization.Some? && StartsWith(req.authorization.value, BearerPrefix) ==>
      r.error == InvalidJwtToken
    ensures r.Success? ==> req.authorization.value == BearerPrefix + req.authorization.value[7..]
  {
    match req.authorization
    case None => Failure(NoJwtToken)
    case Some(header) =>
      if !StartsWith(header, BearerPrefix) then Failure(NoJwtToken)
      else
        match DecodeJwt(header[7..], decodePayload)
        case None => Failure(InvalidJwtToken)
        case Some(user) => Success(user)
  }

  /**
    A bearer header round trip: for any three-part token whose payload decodes,
    `Bearer <token>` authenticates to the decoded claims, whatever their expiry.
   */
  lemma BearerRoundTrip(header: string, payload: string, signature: string, claims: Claims,
                        decodePayload: string -> Option<Claims>, query: map<string, string>)
    requires '.' !in header && '.' !in payload && '.' !in signature
    requires decodePayload(payload) == Some(claims)
    ensures var token := Join([header, payload, signature], '.');
      AuthenticateByJwt(Request(query, None, Some(BearerPrefix + token)), decodePayload)
        == Success(JwtUser(claims.sub, claims.name, claims.role, claims.exp))
  {
    var token := Join([header, payload, signature], '.');
    SplitJoin([header, payload, signature], '.');
    var full := BearerPrefix + token;
    assert full[..|BearerPrefix|] == BearerPrefix;
    assert full[7..] == token;
  }
}
