/**
  The authenticated echo server of ws-client-auth/server.js: `authenticate`
  over a fixed token table, the accept/reject decision of the `upgrade`
  handler, and the welcome and echo texts sent on an accepted connection.
 */
module WsServer {
  import opened Wrappers
  import opened Auth

  /** The server's fixed token table. */
  const ValidTokens: TokenTable := map[
    "user123" := Client("user123", "Alice", "user"),
    "admin456" := Client("admin456", "Bob", "admin"),
    "guest789" := Client("guest789", "Charlie", "guest")
  ]

  /** `authenticate`: the token check over the fixed table, on the `token` and `username` query parameters. */
  function Authenticate(req: Request): (r: Result<Client, AuthError>)
    ensures r.Success? ==> r.value in ValidTokens.Values
    ensures r.Success? ==> Param(req, "token") == Some(r.value.id) && Param(req, "username") == Some(r.value.name)
  {
    CheckToken(ValidTokens, Param(req, "token"), Param(req, "username"))
  }

  /**
    Exactly three credential pairs are accepted, each yielding its table entry
    with role user, admin or guest.
   */
  lemma AuthenticateAcceptsExactly(req: Request)
    ensures var token := Param(req, "token");
      var username := Param(req, "username");
      && (Authenticate(req).Success? <==>
            || (token == Some("user123") && username == Some("Alice"))
            || (token == Some("admin456") && username == Some("Bob"))
            || (token == Some("guest789") && username == Some("Charlie")))
      && (Authenticate(req).Success? ==>
            var c := Authenticate(req).value;
            && c.id == token.value
            && c.name == username.value
            && c.role == (if c.id == "user123" then "user" else if c.id == "admin456" then "admin" else "guest"))
  {
  }

  /**
    The failure reported for each shape of bad credentials: absent or empty
    values first, then an unknown token, then a name that does not match.
   */
  lemma AuthenticateErrors(req: Request)
    ensures var token := Param(req, "token");
      var username := Param(req, "username");
      && (!Truthy(token) || !Truthy(username) ==> Authenticate(req) == Failure(MissingCredentials))
      && (Truthy(token) && Truthy(username) && token.value !in {"user123", "admin456", "guest789"} ==>
            Authenticate(req) == Failure(InvalidToken))
      && (Truthy(token) && Truthy(username) && token.value in ValidTokens && ValidTokens[token.value].name != username.value ==>
            Authenticate(req) == Failure(UsernameMismatch))
  {
  }

  /** `authenticate` exactly as written, with the table lookup seeing `Object.prototype`. */
  function AuthenticateAsWritten(req: Request): (r: Result<Lookup, AuthError>)
    ensures Authenticate(req).Success? ==> r == Success(Own(Authenticate(req).value))
    ensures r.Success? ==> r.value.Name() == Param(req, "username")
  {
    CheckTokenAsWritten(ValidTokens, Param(req, "token"), Param(req, "username"))
  }

  /**
    As written, `?token=toString&username=toString` and
    `?token=constructor&username=Object` pass authentication although neither
    token is in the table; the corrected `Authenticate` refuses both.
   */
  lemma PrototypeTokenBypass()
    ensures var req := Request(map["token" := "toString", "username" := "toString"], None, None);
      AuthenticateAsWritten(req).Success? && Authenticate(req) == Failure(InvalidToken)
    ensures var req := Request(map["token" := "constructor", "username" := "Object"], None, None);
      AuthenticateAsWritten(req).Success? && Authenticate(req) == Failure(InvalidToken)
  {
    Auth.PrototypeTokenAccepted(ValidTokens);
  }

  /** The raw response written to a refused upgrade before the socket is destroyed. */
  const Unauthorized := "HTTP/1.1 401 Unauthorized\r\n\r\n"

  /** What the upgrade handler does: refuse with 401, or hand the connection and client to the WebSocket server. */
  datatype Upgrade = Rejected(response: string) | Accepted(client: Client)

  /** The callback `next(err, client)`: an error or a missing client is refused. */
  function Decide(err: Option<AuthError>, client: Option<Client>): (u: Upgrade)
    ensures u.Accepted? <==> err.None? && client.Some?
    ensures u.Accepted? ==> u.client == client.value
    ensures u.Rejected? ==> u.response == Unauthorized
  {
    if err.Some? || client.None? then Rejected(Unauthorized) else Accepted(client.value)
  }

  /**
    The `upgrade` handler: the request is accepted exactly when authentication
    succeeds, and the `connection` event then carries the authenticated client.
   */
  function HandleUpgrade(req: Request): (u: Upgrade)
    ensures u.Accepted? <==> Authenticate(req).Success?
    ensures u.Accepted? ==> u.client == Authenticate(req).value
    ensures u.Rejected? ==> u.response == Unauthorized
  {
    match Authenticate(req)
    case Failure(e) => Decide(Some(e), None)
    case Success(c) => Decide(None, Some(c))
  }

  /** The welcome text sent on a new connection. */
  function Welcome(c: Client): (w: string)
    ensures |w| > |c.name| + 8 && w[..8] == "Welcome " && w[8..8 + |c.name|] == c.name
    ensures |c.id| <= |w| && w[|w| - |c.id|..] == c.id
  {
    "Welcome " + c.name + "! You are authenticated as user " + c.id
  }

  /** The reply to every message: the data echoed with the sender's name. */
  function Echo(c: Client, data: string): (r: string)
    ensures |r| >= 18 + |data| && r[..18] == "Echo from server: " && r[18..18 + |data|] == data
    ensures |c.name| < |r| && r[|r| - |c.name| - 1..] == c.name + ")"
  {
    "Echo from server: " + data + " (sent by " + c.name + ")"
  }

  /** Reads the user id back out of a welcome text, given the client's name. */
  function WelcomedId(text: string, name: string): Option<string>
  {
    var prefix := "Welcome " + name + "! You are authenticated as user ";
    if |prefix| <= |text| && text[..|prefix|] == prefix then Some(text[|prefix|..]) else None
  }

  /** Reads the echoed data back out of an echo reply, given the sender's name. */
  function EchoedData(reply: string, name: string): Option<string>
  {
    var prefix := "Echo from server: ";
    var suffix := " (sent by " + name + ")";
    if |prefix| + |suffix| <= |reply| && reply[..|prefix|] == prefix && reply[|reply| - |suffix|..] == suffix
    then Some(reply[|prefix|..|reply| - |suffix|])
    else None
  }

  /** The welcome text names the client and carries its id, which can be read back from it. */
  lemma WelcomeNamesClient(c: Client)
    ensures WelcomedId(Welcome(c), c.name) == Some(c.id)
  {
    var prefix := "Welcome " + c.name + "! You are authenticated as user ";
    assert Welcome(c) == prefix + c.id;
    assert Welcome(c)[..|prefix|] == prefix;
    assert Welcome(c)[|prefix|..] == c.id;
  }

  /** The echo reply carries the received data unchanged, between a fixed prefix and the sender's name. */
  lemma EchoRoundTrip(c: Client, data: string)
    ensures EchoedData(Echo(c, data), c.name) == Some(data)
  {
    var prefix := "Echo from server: ";
    var suffix := " (sent by " + c.name + ")";
    var reply := Echo(c, data);
    assert reply == prefix + data + suffix;
    assert reply[..|prefix|] == prefix;
    assert reply[|reply| - |suffix|..] == suffix;
    assert reply[|prefix|..|reply| - |suffix|] == data;
  }

  /** An accepted connection is greeted by the authenticated client's own name and id. */
  lemma AcceptedWelcome(req: Request)
    requires HandleUpgrade(req).Accepted?
    ensures var c := HandleUpgrade(req).client;
      c in ValidTokens.Values && WelcomedId(Welcome(c), Param(req, "username").value) == Some(Param(req, "token").value)
  {
    var c := HandleUpgrade(req).client;
    WelcomeNamesClient(c);
    assert c == ValidTokens[Param(req, "token").value];
  }
}
