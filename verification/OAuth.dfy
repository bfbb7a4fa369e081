/**
 The OAuth life of an MCP server entry: start, callback, refresh and reset, as
 methods that assign the server's fields. Answers of the network are parameters.
 An absent or empty string is falsy, as in the source.
 */
module OAuth {
  import opened Wrappers

  const EXPIRY_SKEW_SECONDS := 60

  predicate Truthy(s: Option<string>) {
    s.Some? && s.value != ""
  }

  /** Authorization server metadata; "" stands for a missing entry. */
  datatype AuthServer = AuthServer(
    authorizationEndpoint: string, tokenEndpoint: string, registrationEndpoint: string, scopes: string)

  /** Protected resource metadata. */
  datatype Resource = Resource(resource: string, authorizationServers: seq<string>, scopes: string)

  const NO_AUTH_SERVER := AuthServer("", "", "", "")
  const NO_RESOURCE := Resource("", [], "")

  datatype Server = Server(
    transport: string,
    url: string,
    authServer: AuthServer,
    protectedResource: Resource,
    clientId: Option<string>,
    clientSecret: Option<string>,
    scope: Option<string>,
    resource: Option<string>,
    accessToken: Option<string>,
    refreshToken: Option<string>,
    expiresAt: Option<int>,
    state: Option<string>,
    codeVerifier: Option<string>)

  function NewServer(transport: string, url: string): Server {
    Server(transport, url, NO_AUTH_SERVER, NO_RESOURCE, None, None, None, None, None, None, None, None, None)
  }

  datatype Registration = Registration(clientId: string, clientSecret: Option<string>)

  /** What the authorization URL carries that the callback and the exchange depend on. */
  datatype AuthorizationUrl = AuthorizationUrl(
    endpoint: string, clientId: string, state: string, challenge: string, scope: string)

  datatype TokenPayload = TokenPayload(accessToken: string, refreshToken: string, expiresIn: Option<int>, scope: string)

  /** `Refused` is an MCPOAuthError; `Unreachable` another exception, which none of the services catches. */
  datatype TokenReply = Answered(payload: TokenPayload) | Refused | Unreachable

  datatype Tokens = Tokens(accessToken: string, refreshToken: string, expiresAt: Option<int>, scope: string)

  /** Normalisation of a token response; None is an MCPOAuthError. */
  function TokensFromResponse(p: TokenPayload, now: int): Option<Tokens> {
    if p.accessToken == "" then None
    else
      var expiresAt := if p.expiresIn.Some? then Some(now + p.expiresIn.value) else None;
      Some(Tokens(p.accessToken, p.refreshToken, expiresAt, p.scope))
  }

  predicate IsTokenExpired(expiresAt: Option<int>, now: int) {
    expiresAt.Some? && expiresAt.value <= now + EXPIRY_SKEW_SECONDS
  }

  predicate NeedsRefresh(s: Server, now: int) {
    Truthy(s.accessToken) && IsTokenExpired(s.expiresAt, now) && Truthy(s.refreshToken)
  }

  datatype AuthorizationStatus = NotApplicable | NotAuthorized | Expired | Authorized

  function StatusOf(s: Server, now: int): AuthorizationStatus {
    if s.transport != "http" then NotApplicable
    else if !Truthy(s.accessToken) then NotAuthorized
    else if IsTokenExpired(s.expiresAt, now) then if !Truthy(s.refreshToken) then Expired else Authorized
    else Authorized
  }

  // ---- the operations on values ----

  function Stored(s: Server, t: Tokens): Server {
    s.(accessToken := Some(t.accessToken),
       refreshToken := if t.refreshToken != "" then Some(t.refreshToken) else s.refreshToken,
       expiresAt := t.expiresAt,
       scope := if t.scope != "" then Some(t.scope) else s.scope)
  }

  function Cleared(s: Server): Server {
    s.(accessToken := None, refreshToken := None, expiresAt := None, state := None, codeVerifier := None)
  }

  /** The same address, metadata, client and resource. */
  predicate SameServer(s: Server, t: Server) {
    && t.transport == s.transport && t.url == s.url && t.resource == s.resource
    && t.authServer == s.authServer && t.protectedResource == s.protectedResource
    && t.clientId == s.clientId && t.clientSecret == s.clientSecret
  }

  predicate Complete(a: AuthServer) {
    a.authorizationEndpoint != "" && a.tokenEndpoint != ""
  }

  /** The first complete metadata among the candidates' answers. */
  function FirstComplete(replies: seq<Option<AuthServer>>): (r: Option<AuthServer>)
    ensures r.Some? ==> Complete(r.value)
  {
    if replies == [] then None
    else if replies[0].Some? && Complete(replies[0].value) then replies[0]
    else FirstComplete(replies[1..])
  }

  predicate HasEndpoints(reply: Option<AuthServer>) {
    reply.Some? && reply.value.authorizationEndpoint != "" && reply.value.tokenEndpoint != ""
  }

  /** The i-th answer has both endpoints, and none before it has. */
  ghost predicate FirstWithEndpoints(replies: seq<Option<AuthServer>>, i: nat) {
    i < |replies| && HasEndpoints(replies[i]) && forall j :: 0 <= j < i ==> !HasEndpoints(replies[j])
  }

  method FetchAuthorizationServerMetadata(replies: seq<Option<AuthServer>>) returns (r: Option<AuthServer>)
    ensures r == FirstComplete(replies)
    ensures r.Some? ==> exists i :: 0 <= i < |replies| && replies[i] == r && FirstWithEndpoints(replies, i)
    ensures r.None? ==> forall i :: 0 <= i < |replies| ==> !HasEndpoints(replies[i])
  {
    var i := 0;
    while i < |replies|
      invariant 0 <= i <= |replies|
      invariant forall j :: 0 <= j < i ==> !HasEndpoints(replies[j])
      invariant FirstComplete(replies) == FirstComplete(replies[i..])
    {
      if replies[i].Some? && Complete(replies[i].value) {
        assert FirstWithEndpoints(replies, i);
        return replies[i];
      }
      i := i + 1;
    }
    return None;
  }

  /** What the network and the generators contribute to a start of the authorization. */
  datatype StartInput = StartInput(
    resource: Option<Resource>,           // protected resource metadata, if it can be fetched
    servers: seq<Option<AuthServer>>,     // the answers of the candidates of its authorization server
    registration: Option<Registration>,   // the answer of the registration endpoint
    canonicalUrl: string,                 // the server's URL without query and trailing slash
    verifier: string,
    challenge: string,
    state: string)

  class McpServer {
    var transport: string
    var url: string
    var authServer: AuthServer
    var protectedResource: Resource
    var clientId: Option<string>
    var clientSecret: Option<string>
    var scope: Option<string>
    var resource: Option<string>
    var accessToken: Option<string>
    var refreshToken: Option<string>
    var expiresAt: Option<int>
    var state: Option<string>
    var codeVerifier: Option<string>

    function View(): Server
      reads this
    {
      Server(transport, url, authServer, protectedResource, clientId, clientSecret, scope, resource,
             accessToken, refreshToken, expiresAt, state, codeVerifier)
    }

    constructor (transport: string, url: string)
      ensures View() == NewServer(transport, url)
    {
      this.transport, this.url := transport, url;
      authServer, protectedResource := NO_AUTH_SERVER, NO_RESOURCE;
      clientId, clientSecret, scope, resource := None, None, None, None;
      accessToken, refreshToken, expiresAt := None, None, None;
      state, codeVerifier := None, None;
    }

    method StoreTokens(t: Tokens)
      modifies this
      ensures View() == Stored(old(View()), t)
      ensures accessToken == Some(t.accessToken) && expiresAt == t.expiresAt
      ensures refreshToken == if t.refreshToken != "" then Some(t.refreshToken) else old(refreshToken)
      ensures scope == if t.scope != "" then Some(t.scope) else old(scope)
      ensures state == old(state) && codeVerifier == old(codeVerifier) && SameServer(old(View()), View())
    {
      accessToken := Some(t.accessToken);
      if t.refreshToken != "" {
        refreshToken := Some(t.refreshToken);
      }
      expiresAt := t.expiresAt;
      if t.scope != "" {
        scope := Some(t.scope);
      }
    }

    method ClearAuthorization()
      modifies this
      ensures View() == Cleared(old(View()))
      ensures accessToken == None && refreshToken == None && expiresAt == None && state == None && codeVerifier == None
      ensures scope == old(scope) && SameServer(old(View()), View())
    {
      accessToken, refreshToken, expiresAt := None, None, None;
      state, codeVerifier := None, None;
    }

    /** The metadata at hand, discovered first if it is incomplete. */
    method Discover(input: StartInput) returns (r: Option<(AuthServer, Resource)>)
      ensures r == Chosen(View(), input)
    {
      if authServer.authorizationEndpoint != "" && authServer.tokenEndpoint != "" {
        return Some((authServer, protectedResource));
      }
      if input.resource == None || input.resource.value.authorizationServers == [] {
        return None;
      }
      var fetched := FetchAuthorizationServerMetadata(input.servers);
      if fetched == None {
        return None;
      }
      return Some((fetched.value, input.resource.value));
    }

    /** Registers a client if the server has none yet. */
    method EnsureClient(asm: AuthServer, registration: Option<Registration>) returns (ok: bool)
      modifies this`clientId, this`clientSecret
      ensures ok <==> ClientAvailable(old(View()), asm, registration)
      ensures View() == if ok then WithClient(old(View()), registration) else old(View())
      ensures ok ==> Truthy(clientId)
    {
      if !Truthy(clientId) {
        if asm.registrationEndpoint == "" || registration == None || registration.value.clientId == "" {
          return false;
        }
        clientId := Some(registration.value.clientId);
        clientSecret := registration.value.clientSecret;
      }
      return true;
    }

    /** What a successful start leaves behind, and the URL handed to the browser. */
    method Remember(asm: AuthServer, prm: Resource, wanted: string, asked: string, input: StartInput)
      returns (link: AuthorizationUrl)
      requires Truthy(clientId)
      modifies this`authServer, this`protectedResource, this`resource, this`scope, this`state, this`codeVerifier
      ensures View() == old(View()).(authServer := asm, protectedResource := prm, resource := Some(wanted),
                                     scope := Some(asked), state := Some(input.state),
                                     codeVerifier := Some(input.verifier))
      ensures link == AuthorizationUrl(asm.authorizationEndpoint, clientId.value, input.state, input.challenge, asked)
    {
      authServer, protectedResource := asm, prm;
      resource := Some(wanted);
      scope := Some(asked);
      state := Some(input.state);
      codeVerifier := Some(input.verifier);
      return AuthorizationUrl(asm.authorizationEndpoint, clientId.value, input.state, input.challenge, asked);
    }

    /**
     `prepare_authorization`: on success the server has a complete authorization server and a client, and
     remembers exactly the state that the URL carries, with the verifier of its challenge; an error changes nothing.
     */
    method PrepareAuthorization(input: StartInput) returns (r: Option<AuthorizationUrl>)
      modifies this
      ensures Started(old(View()), input, View(), r)
    {
      hide Started, Chosen, ClientAvailable, WithClient;
      ghost var before := View();
      if transport != "http" || url == "" {
        NotStarted(before, input);
        return None;
      }
      var metadata := Discover(input);
      if metadata == None {
        NotStarted(before, input);
        return None;
      }
      var (asm, prm) := metadata.value;
      var wanted := if prm.resource != "" then prm.resource else input.canonicalUrl;
      var asked := if Truthy(scope) then scope.value else if prm.scopes != "" then prm.scopes else asm.scopes;
      var ok := EnsureClient(asm, input.registration);
      if !ok {
        NotStarted(before, input);
        return None;
      }
      var link := Remember(asm, prm, wanted, asked, input);
      StartedByRemembering(before, input, asm, prm, wanted, asked);
      return Some(link);
    }

    /** `complete_authorization`: true if the code was exchanged. */
    method CompleteAuthorization(now: int, reply: TokenReply) returns (ok: bool)
      modifies this
      ensures View() == AfterCompletion(old(View()), now, reply)
      ensures ok == Exchanges(old(View()), now, reply)
      ensures ok <==> && authServer.tokenEndpoint != "" && Truthy(old(codeVerifier)) && Truthy(clientId)
                      && reply.Answered? && reply.payload.accessToken != ""
      ensures ok ==> state == None && codeVerifier == None && accessToken == Some(reply.payload.accessToken)
      ensures !ok ==> View() == old(View())
      ensures SameServer(old(View()), View())
    {
      if authServer.tokenEndpoint == "" {
        return false;
      }
      if !Truthy(codeVerifier) || !Truthy(clientId) {
        return false;
      }
      if !reply.Answered? {
        return false;
      }
      var tokens := TokensFromResponse(reply.payload, now);
      if tokens == None {
        return false;
      }
      StoreTokens(tokens.value);
      state, codeVerifier := None, None;
      return true;
    }

    /** `ensure_fresh_token`: the usable token, if any, and whether the token endpoint was asked. */
    method EnsureFreshToken(now: int, reply: TokenReply) returns (token: Option<string>, asked: bool)
      modifies this
      ensures View() == AfterUse(old(View()), now, reply)
      ensures asked == Asks(old(View()), now)
      ensures !asked ==> token == (if Truthy(old(accessToken)) then old(accessToken) else None)
      ensures asked && !reply.Unreachable? ==> token == accessToken
      ensures asked <==> && Truthy(old(accessToken)) && Truthy(old(refreshToken))
                         && old(expiresAt).Some? && old(expiresAt).value <= now + 60
                         && authServer.tokenEndpoint != "" && Truthy(clientId)
      ensures !asked || reply.Unreachable? ==> View() == old(View())
      ensures asked && (reply.Refused? || (reply.Answered? && reply.payload.accessToken == "")) ==>
                && accessToken == None && refreshToken == None && expiresAt == None
                && state == None && codeVerifier == None
      ensures asked && reply.Answered? && reply.payload.accessToken != "" ==>
                && accessToken == Some(reply.payload.accessToken) && Truthy(refreshToken)
                && state == old(state) && codeVerifier == old(codeVerifier)
      ensures SameServer(old(View()), View())
    {
      if !Truthy(accessToken) {
        return None, false;
      }
      if !IsTokenExpired(expiresAt, now) {
        return accessToken, false;
      }
      if !Truthy(refreshToken) {
        return accessToken, false;
      }
      if authServer.tokenEndpoint == "" || !Truthy(clientId) {
        return accessToken, false;
      }
      match reply
      case Unreachable =>
        return None, true;
      case Refused =>
        ClearAuthorization();
        return None, true;
      case Answered(payload) =>
        var tokens := TokensFromResponse(payload, now);
        if tokens == None {
          ClearAuthorization();
          return None, true;
        }
        StoreTokens(tokens.value.(refreshToken :=
          if tokens.value.refreshToken != "" then tokens.value.refreshToken else refreshToken.value));
        return accessToken, true;
    }
  }

  /** The token endpoint is asked to exchange the code of a callback. */
  predicate CanExchange(s: Server) {
    s.authServer.tokenEndpoint != "" && Truthy(s.codeVerifier) && Truthy(s.clientId)
  }

  /** The code of a callback is exchanged. */
  predicate Exchanges(s: Server, now: int, reply: TokenReply) {
    CanExchange(s) && reply.Answered? && TokensFromResponse(reply.payload, now).Some?
  }

  function AfterCompletion(s: Server, now: int, reply: TokenReply): Server {
    if Exchanges(s, now, reply)
    then Stored(s, TokensFromResponse(reply.payload, now).value).(state := None, codeVerifier := None)
    else s
  }

  /** The token endpoint is asked for a refresh. */
  predicate Asks(s: Server, now: int) {
    NeedsRefresh(s, now) && s.authServer.tokenEndpoint != "" && Truthy(s.clientId)
  }

  /** A refreshed token keeps the refresh token when the answer brings none; a refusal clears the authorization. */
  function Refreshed(s: Server, now: int, reply: TokenReply): Server {
    if reply.Unreachable? then s
    else if reply.Answered? && TokensFromResponse(reply.payload, now).Some?
    then Stored(s, TokensFromResponse(reply.payload, now).value)
    else Cleared(s)
  }

  function AfterUse(s: Server, now: int, reply: TokenReply): Server {
    if Asks(s, now) then Refreshed(s, now, reply) else s
  }

  /** The metadata a start works with: what the server has if it is complete, else what is discovered now. */
  function Chosen(s: Server, input: StartInput): Option<(AuthServer, Resource)> {
    if Complete(s.authServer) then Some((s.authServer, s.protectedResource))
    else
      match (input.resource, FirstComplete(input.servers))
      case (Some(prm), Some(asm)) => if prm.authorizationServers == [] then None else Some((asm, prm))
      case _ => None
  }

  /** The server has a client, or can register one. */
  predicate ClientAvailable(s: Server, asm: AuthServer, registration: Option<Registration>) {
    Truthy(s.clientId) || (asm.registrationEndpoint != "" && registration.Some? && registration.value.clientId != "")
  }

  function WithClient(s: Server, registration: Option<Registration>): Server {
    if Truthy(s.clientId) || registration == None then s
    else s.(clientId := Some(registration.value.clientId), clientSecret := registration.value.clientSecret)
  }

  /** A start succeeds for an http server whose metadata is complete and that has, or can register, a client. */
  predicate CanStart(s: Server, input: StartInput) {
    && s.transport == "http" && s.url != ""
    && Chosen(s, input).Some?
    && ClientAvailable(s, Chosen(s, input).value.0, input.registration)
  }

  /** The relation between the server before and after a start, and the URL handed to the browser. */
  ghost predicate Started(s: Server, input: StartInput, t: Server, r: Option<AuthorizationUrl>) {
    && (r.Some? <==> CanStart(s, input))
    && match r
       case None => t == s
       case Some(link) =>
         && (t.authServer, t.protectedResource) == Chosen(s, input).value
         && Complete(t.authServer) && Truthy(t.clientId)
         && (if Truthy(s.clientId) then t.clientId == s.clientId && t.clientSecret == s.clientSecret
             else t.clientId == Some(input.registration.value.clientId)
                  && t.clientSecret == input.registration.value.clientSecret)
         && t.state == Some(input.state) && t.codeVerifier == Some(input.verifier)
         && (if Truthy(s.scope) then t.scope == s.scope
             else t.scope == Some(
               if t.protectedResource.scopes != "" then t.protectedResource.scopes else t.authServer.scopes))
         && t.resource == Some(
           if t.protectedResource.resource != "" then t.protectedResource.resource else input.canonicalUrl)
         && t.accessToken == s.accessToken && t.refreshToken == s.refreshToken && t.expiresAt == s.expiresAt
         && t.transport == s.transport && t.url == s.url
         && link.state == input.state && link.challenge == input.challenge && Some(link.clientId) == t.clientId
         && link.endpoint == t.authServer.authorizationEndpoint && Some(link.scope) == t.scope
  }

  /** A start in the source's terms: which metadata it works with, and when it succeeds. */
  lemma StartsExactlyWhen(s: Server, input: StartInput)
    ensures CanStart(s, input) <==>
            && s.transport == "http" && s.url != "" && Chosen(s, input).Some?
            && (|| Truthy(s.clientId)
                || (&& Chosen(s, input).value.0.registrationEndpoint != ""
                    && input.registration.Some? && input.registration.value.clientId != ""))
    ensures HasEndpoints(Some(s.authServer)) ==> Chosen(s, input) == Some((s.authServer, s.protectedResource))
    ensures !HasEndpoints(Some(s.authServer)) ==>
              && (Chosen(s, input).Some? <==>
                    && input.resource.Some? && input.resource.value.authorizationServers != []
                    && exists i :: 0 <= i < |input.servers| && HasEndpoints(input.servers[i]))
              && (Chosen(s, input).Some? ==>
                    && input.resource == Some(Chosen(s, input).value.1)
                    && exists i :: 0 <= i < |input.servers| && input.servers[i] == Some(Chosen(s, input).value.0)
                                   && FirstWithEndpoints(input.servers, i))
  {
    var i := FirstCompleteIsFirst(input.servers);
    if i.Some? {
      assert FirstWithEndpoints(input.servers, i.value);
    }
  }

  lemma {:induction false} FirstCompleteIsFirst(replies: seq<Option<AuthServer>>) returns (i: Option<nat>)
    ensures i.Some? <==> FirstComplete(replies).Some?
    ensures i.Some? ==> i.value < |replies| && replies[i.value] == FirstComplete(replies)
                        && FirstWithEndpoints(replies, i.value)
    ensures i.None? ==> forall j :: 0 <= j < |replies| ==> !HasEndpoints(replies[j])
  {
    if replies == [] {
      i := None;
    } else if HasEndpoints(replies[0]) {
      i := Some(0);
    } else {
      var rest := FirstCompleteIsFirst(replies[1..]);
      match rest
      case None =>
        i := None;
      case Some(j) =>
        i := Some(j + 1);
        forall m | 0 <= m < j + 1 ensures !HasEndpoints(replies[m]) {
          assert m > 0 ==> replies[1..][m - 1] == replies[m];
        }
    }
  }

  lemma NotStarted(s: Server, input: StartInput)
    requires !CanStart(s, input)
    ensures Started(s, input, s, None)
  {
  }

  lemma ChosenIsComplete(s: Server, input: StartInput)
    requires Chosen(s, input).Some?
    ensures Complete(Chosen(s, input).value.0)
  {
  }

  lemma StartedByRemembering(
    s: Server, input: StartInput, asm: AuthServer, prm: Resource, wanted: string, asked: string)
    requires CanStart(s, input) && Chosen(s, input) == Some((asm, prm))
    requires wanted == if prm.resource != "" then prm.resource else input.canonicalUrl
    requires asked == if Truthy(s.scope) then s.scope.value else if prm.scopes != "" then prm.scopes else asm.scopes
    ensures var c := WithClient(s, input.registration);
            && Truthy(c.clientId)
            && Started(s, input,
                       c.(authServer := asm, protectedResource := prm, resource := Some(wanted), scope := Some(asked),
                          state := Some(input.state), codeVerifier := Some(input.verifier)),
                       Some(AuthorizationUrl(asm.authorizationEndpoint, c.clientId.value, input.state,
                                             input.challenge, asked)))
  {
    hide Chosen;
    ChosenIsComplete(s, input);
  }

  /**
   What an exchange or a refresh puts in force: the new token until its declared end, less the skew; for
   ever if none is declared.
   */
  lemma TokensInForce(s: Server, t: Server, payload: TokenPayload, now: int, later: int)
    requires (Exchanges(s, now, Answered(payload)) && t == AfterCompletion(s, now, Answered(payload)))
             || (Asks(s, now) && payload.accessToken != "" && t == AfterUse(s, now, Answered(payload)))
    ensures t.accessToken == Some(payload.accessToken) && Truthy(t.accessToken)
    ensures t.refreshToken == if payload.refreshToken != "" then Some(payload.refreshToken) else s.refreshToken
    ensures t.scope == if payload.scope != "" then Some(payload.scope) else s.scope
    ensures NeedsRefresh(t, later) <==>
            && payload.expiresIn.Some? && now + payload.expiresIn.value - 60 <= later
            && Truthy(t.refreshToken)
    ensures (t.state == None && t.codeVerifier == None) || (t.state == s.state && t.codeVerifier == s.codeVerifier)
  {
  }

  // ---- requests in flight ----

  /** The column of a row after the commit of a copy of it: written only if the copy was changed. */
  function Column<T(==)>(row: T, loaded: T, changed: T): T {
    if changed == loaded then row else changed
  }

  /** The row after the commit of a copy that was loaded before and changed since. */
  function Commit(row: Server, loaded: Server, changed: Server): Server {
    var metadata := Column((row.authServer, row.protectedResource), (loaded.authServer, loaded.protectedResource),
                           (changed.authServer, changed.protectedResource));
    Server(
      Column(row.transport, loaded.transport, changed.transport),
      Column(row.url, loaded.url, changed.url),
      metadata.0, metadata.1,
      Column(row.clientId, loaded.clientId, changed.clientId),
      Column(row.clientSecret, loaded.clientSecret, changed.clientSecret),
      Column(row.scope, loaded.scope, changed.scope),
      Column(row.resource, loaded.resource, changed.resource),
      Column(row.accessToken, loaded.accessToken, changed.accessToken),
      Column(row.refreshToken, loaded.refreshToken, changed.refreshToken),
      Column(row.expiresAt, loaded.expiresAt, changed.expiresAt),
      Column(row.state, loaded.state, changed.state),
      Column(row.codeVerifier, loaded.codeVerifier, changed.codeVerifier))
  }

  /** A request that nothing interrupts commits what its operation computed. */
  lemma UninterruptedCommit(s: Server, changed: Server)
    ensures Commit(s, s, changed) == changed
  {
  }

  /** A column that a request did not change keeps what others have written to it meanwhile, and no other does. */
  lemma OthersWritesSurvive(row: Server, loaded: Server, changed: Server)
    ensures var c := Commit(row, loaded, changed);
            && c.accessToken
               == (if changed.accessToken == loaded.accessToken then row.accessToken else changed.accessToken)
            && c.refreshToken
               == (if changed.refreshToken == loaded.refreshToken then row.refreshToken else changed.refreshToken)
            && c.state == (if changed.state == loaded.state then row.state else changed.state)
            && c.codeVerifier
               == (if changed.codeVerifier == loaded.codeVerifier then row.codeVerifier else changed.codeVerifier)
  {
  }

  datatype Kind = ForStart | ForCallback | ForUse | ForReset

  /** A request that has loaded the row and not committed yet. */
  datatype Flight = Flight(loaded: Server, kind: Kind)

  // ---- whole lives ----

  /**
   `issued` and `states` are the verifiers and states ever generated, `exchanged` the verifiers spent in an exchange.
   */
  datatype Life = Life(
    server: Server, flights: seq<Flight>, issued: set<string>, states: set<string>, exchanged: multiset<string>)

  /**
   Each request loads the row, may await the network, and commits; any other event may happen in between. A
   callback finds its server by the state, and a use without need of a refresh does nothing. `Edit` is a change of
   transport or address by an administrator.
   */
  datatype Event =
    | LoadStart
    | CommitStart(i: nat, input: StartInput, after: Server, link: Option<AuthorizationUrl>)
    | Send(state: string)
    | Reply(i: nat, now: int, reply: TokenReply)
    | LoadUse(now: int)
    | CommitUse(i: nat, now: int, reply: TokenReply)
    | LoadReset
    | CommitReset(i: nat)
    | Edit(transport: string, url: string)

  predicate InFlight(l: Life, i: nat, kind: Kind) {
    i < |l.flights| && l.flights[i].kind == kind
  }

  ghost predicate Enabled(l: Life, e: Event) {
    match e
    case CommitStart(i, input, after, link) =>
      && InFlight(l, i, ForStart) && Started(l.flights[i].loaded, input, after, link)
      && input.verifier != "" && input.verifier !in l.issued && input.state !in l.states
    case Reply(i, _, _) => InFlight(l, i, ForCallback)
    case CommitUse(i, _, _) => InFlight(l, i, ForUse)
    case CommitReset(i) => InFlight(l, i, ForReset)
    case _ => true
  }

  function Departed(l: Life, kind: Kind): Life {
    l.(flights := l.flights + [Flight(l.server, kind)])
  }

  function Landed(l: Life, i: nat, changed: Server): Life
    requires i < |l.flights|
  {
    l.(server := Commit(l.server, l.flights[i].loaded, changed), flights := l.flights[..i] + l.flights[i + 1..])
  }

  ghost function Perform(l: Life, e: Event): Life
    requires Enabled(l, e)
  {
    match e
    case LoadStart => Departed(l, ForStart)
    case CommitStart(i, input, after, _) =>
      Landed(l, i, after).(issued := l.issued + {input.verifier}, states := l.states + {input.state})
    case Send(state) =>
      if l.server.state == Some(state) && CanExchange(l.server) then Departed(l, ForCallback) else l
    case Reply(i, now, reply) =>
      var loaded := l.flights[i].loaded;
      Landed(l, i, AfterCompletion(loaded, now, reply)).(
        exchanged :=
          l.exchanged + if Exchanges(loaded, now, reply) then multiset{loaded.codeVerifier.value} else multiset{})
    case LoadUse(now) => if Asks(l.server, now) then Departed(l, ForUse) else l
    case CommitUse(i, now, reply) => Landed(l, i, Refreshed(l.flights[i].loaded, now, reply))
    case LoadReset => Departed(l, ForReset)
    case CommitReset(i) => Landed(l, i, Cleared(l.flights[i].loaded))
    case Edit(transport, url) => l.(server := l.server.(transport := transport, url := url))
  }

  function New(transport: string, url: string): Life {
    Life(NewServer(transport, url), [], {}, {}, multiset{})
  }

  ghost predicate IsRun(transport: string, url: string, ls: seq<Life>, es: seq<Event>) {
    && |ls| == |es| + 1 && ls[0] == New(transport, url)
    && forall i :: 0 <= i < |es| ==> Enabled(ls[i], es[i]) && ls[i + 1] == Perform(ls[i], es[i])
  }

  /** The server can talk to a token endpoint. */
  predicate Equipped(s: Server) {
    s.authServer.tokenEndpoint != "" && Truthy(s.clientId)
  }

  /** Pending state and verifier come together, and were generated by a start. */
  ghost predicate Paired(l: Life, s: Server) {
    && (s.state.Some? <==> s.codeVerifier.Some?)
    && (s.state.Some? ==> s.state.value in l.states && s.codeVerifier.value in l.issued)
  }

  ghost predicate Sound(l: Life) {
    var s := l.server;
    && Paired(l, s)
    && (s.codeVerifier.Some? ==> s.codeVerifier.value != "" && s.codeVerifier.value !in l.exchanged && Equipped(s))
    && (Truthy(s.accessToken) ==> Equipped(s))
    && (forall v :: v in l.exchanged ==> v in l.issued)
    && (forall i :: 0 <= i < |l.flights| ==> SoundFlight(l, l.flights[i]))
  }

  /** What the row had when a request loaded it, it has still. */
  ghost predicate SoundFlight(l: Life, f: Flight) {
    && Paired(l, f.loaded)
    && (f.loaded.authServer.tokenEndpoint != "" ==> l.server.authServer.tokenEndpoint != "")
    && (Truthy(f.loaded.clientId) ==> Truthy(l.server.clientId))
    && (f.kind == ForCallback ==> f.loaded.state.Some? && Equipped(f.loaded))
    && (f.kind == ForUse ==> Equipped(f.loaded))
  }

  /** A later life has all that the row had, so the flights that remain are still sound. */
  ghost predicate Grown(l: Life, m: Life) {
    && l.issued <= m.issued && l.states <= m.states
    && (l.server.authServer.tokenEndpoint != "" ==> m.server.authServer.tokenEndpoint != "")
    && (Truthy(l.server.clientId) ==> Truthy(m.server.clientId))
  }

  lemma LandingKeepsFlights(l: Life, m: Life, i: nat)
    requires Sound(l) && Grown(l, m) && i < |l.flights| && m.flights == l.flights[..i] + l.flights[i + 1..]
    ensures forall j :: 0 <= j < |m.flights| ==> SoundFlight(m, m.flights[j])
  {
    forall j | 0 <= j < |m.flights| ensures SoundFlight(m, m.flights[j]) {
      var k := if j < i then j else j + 1;
      assert m.flights[j] == l.flights[k] && SoundFlight(l, l.flights[k]);
    }
  }

  lemma DepartureIsSound(l: Life, kind: Kind)
    requires Sound(l) && (kind == ForCallback ==> l.server.state.Some? && Equipped(l.server))
    requires kind == ForUse ==> Equipped(l.server)
    ensures Sound(Departed(l, kind))
  {
    var m := Departed(l, kind);
    forall j | 0 <= j < |m.flights| ensures SoundFlight(m, m.flights[j]) {
      assert j < |l.flights| ==> SoundFlight(l, l.flights[j]);
    }
  }

  lemma CommitStartIsSound(l: Life, e: Event)
    requires Sound(l) && Enabled(l, e) && e.CommitStart?
    ensures Sound(Perform(l, e))
  {
    var m := Perform(l, e);
    assert SoundFlight(l, l.flights[e.i]);
    if e.link == None {
      assert m.server == l.server;
    }
    LandingKeepsFlights(l, m, e.i);
  }

  lemma ReplyIsSound(l: Life, e: Event)
    requires Sound(l) && Enabled(l, e) && e.Reply?
    ensures Sound(Perform(l, e))
  {
    assert SoundFlight(l, l.flights[e.i]);
    LandingKeepsFlights(l, Perform(l, e), e.i);
  }

  lemma CommitUseIsSound(l: Life, e: Event)
    requires Sound(l) && Enabled(l, e) && (e.CommitUse? || e.CommitReset?)
    ensures Sound(Perform(l, e))
  {
    assert SoundFlight(l, l.flights[e.i]);
    LandingKeepsFlights(l, Perform(l, e), e.i);
  }

  lemma EditIsSound(l: Life, e: Event)
    requires Sound(l) && e.Edit?
    ensures Sound(Perform(l, e))
  {
    var m := Perform(l, e);
    forall j | 0 <= j < |m.flights| ensures SoundFlight(m, m.flights[j]) {
      assert SoundFlight(l, l.flights[j]);
    }
  }

  lemma StepIsSound(l: Life, e: Event)
    requires Sound(l) && Enabled(l, e)
    ensures Sound(Perform(l, e))
  {
    hide Sound, Started;
    match e
    case LoadStart => DepartureIsSound(l, ForStart);
    case CommitStart(_, _, _, _) => CommitStartIsSound(l, e);
    case Send(state) =>
      if l.server.state == Some(state) && CanExchange(l.server) {
        DepartureIsSound(l, ForCallback);
      }
    case Reply(_, _, _) => ReplyIsSound(l, e);
    case LoadUse(now) =>
      if Asks(l.server, now) {
        DepartureIsSound(l, ForUse);
      }
    case CommitUse(_, _, _) => CommitUseIsSound(l, e);
    case LoadReset => DepartureIsSound(l, ForReset);
    case CommitReset(_) => CommitUseIsSound(l, e);
    case Edit(_, _) => EditIsSound(l, e);
  }

  /**
   Over every life, however starts, callbacks, uses and resets overlap: a pending state comes with its verifier,
   which is unspent, and an access token with the endpoint and the client that can refresh it.
   */
  lemma {:induction false} LifeIsSound(transport: string, url: string, ls: seq<Life>, es: seq<Event>, k: nat)
    requires IsRun(transport, url, ls, es) && k <= |es|
    ensures Sound(ls[k])
  {
    hide Perform, Enabled, Sound;
    if k == 0 {
      NewIsSound(transport, url);
    } else {
      LifeIsSound(transport, url, ls, es, k - 1);
      StepIsSound(ls[k - 1], es[k - 1]);
    }
  }

  lemma NewIsSound(transport: string, url: string)
    ensures Sound(New(transport, url))
  {
  }

  // ---- each verifier is exchanged once, unless its callbacks overlap ----

  /** No callback is sent with a verifier that another callback in flight carries. */
  ghost predicate Separate(l: Life, e: Event) {
    e.Send? ==>
      forall i :: 0 <= i < |l.flights| && l.flights[i].kind == ForCallback
                  ==> l.flights[i].loaded.codeVerifier != l.server.codeVerifier
  }

  ghost predicate Once(l: Life) {
    && (forall i, j :: 0 <= i < j < |l.flights| && l.flights[i].kind == l.flights[j].kind == ForCallback
                       ==> l.flights[i].loaded.codeVerifier != l.flights[j].loaded.codeVerifier)
    && (forall v :: l.exchanged[v] <= 1)
    && (forall i :: 0 <= i < |l.flights| && l.flights[i].kind == ForCallback && l.flights[i].loaded.codeVerifier.Some?
                    ==> l.flights[i].loaded.codeVerifier.value !in l.exchanged)
  }

  lemma LandingIsOnce(l: Life, m: Life, i: nat)
    requires Once(l) && i < |l.flights|
    requires m.flights == l.flights[..i] + l.flights[i + 1..] && m.exchanged == l.exchanged
    ensures Once(m)
  {
    forall j | 0 <= j < |m.flights| ensures m.flights[j] == l.flights[if j < i then j else j + 1] {
    }
  }

  lemma ReplyIsOnce(l: Life, e: Event)
    requires Sound(l) && Once(l) && Enabled(l, e) && e.Reply?
    ensures Once(Perform(l, e))
  {
    hide AfterCompletion, Commit;
    var m, i := Perform(l, e), e.i;
    assert SoundFlight(l, l.flights[i]);
    forall j | 0 <= j < |m.flights| && m.flights[j].kind == ForCallback
      ensures m.flights[j].loaded.codeVerifier != l.flights[i].loaded.codeVerifier
      ensures m.flights[j].loaded.codeVerifier.Some? ==> m.flights[j].loaded.codeVerifier.value !in m.exchanged
    {
      assert m.flights[j] == l.flights[if j < i then j else j + 1];
    }
    forall j, k | 0 <= j < k < |m.flights| && m.flights[j].kind == m.flights[k].kind == ForCallback
      ensures m.flights[j].loaded.codeVerifier != m.flights[k].loaded.codeVerifier
    {
      assert m.flights[j] == l.flights[if j < i then j else j + 1];
      assert m.flights[k] == l.flights[if k < i then k else k + 1];
    }
  }

  lemma SendIsOnce(l: Life, e: Event)
    requires Sound(l) && Once(l) && Separate(l, e) && e.Send?
    ensures Once(Perform(l, e))
  {
    hide CanExchange, Equipped;
  }

  lemma StepIsOnce(l: Life, e: Event)
    requires Sound(l) && Once(l) && Enabled(l, e) && Separate(l, e)
    ensures Once(Perform(l, e))
  {
    hide Started, Stored, Exchanges, AfterCompletion, Commit, Sound;
    if e.Send? {
      SendIsOnce(l, e);
    } else if e.Reply? {
      ReplyIsOnce(l, e);
    } else if e.CommitStart? || e.CommitUse? || e.CommitReset? {
      LandingIsOnce(l, Perform(l, e), e.i);
    }
  }

  lemma {:induction false} ExchangedAtMostOnce(
    transport: string, url: string, ls: seq<Life>, es: seq<Event>, k: nat, v: string)
    requires IsRun(transport, url, ls, es) && k <= |es| && forall i :: 0 <= i < k ==> Separate(ls[i], es[i])
    ensures Once(ls[k]) && ls[k].exchanged[v] <= 1
  {
    hide Perform, Enabled, Sound, Separate;
    if k > 0 {
      ExchangedAtMostOnce(transport, url, ls, es, k - 1, v);
      LifeIsSound(transport, url, ls, es, k - 1);
      StepIsOnce(ls[k - 1], es[k - 1]);
    }
  }

  /**
   The condition is needed: of any pending authorization two callbacks can be sent, and both exchange its
   verifier.
   */
  lemma OverlapExchangesTwice(l: Life, now: int, payload: TokenPayload) returns (ls: seq<Life>, es: seq<Event>)
    requires l.server.state.Some? && CanExchange(l.server) && payload.accessToken != ""
    ensures |es| == 4 && |ls| == 5 && ls[0] == l
    ensures forall i :: 0 <= i < 4 ==> Enabled(ls[i], es[i]) && ls[i + 1] == Perform(ls[i], es[i])
    ensures ls[4].exchanged[l.server.codeVerifier.value] >= 2
  {
    hide Commit, AfterCompletion;
    var n := |l.flights|;
    var send, reply := Send(l.server.state.value), Reply(n, now, Answered(payload));
    var l1 := Perform(l, send);
    var l2 := Perform(l1, send);
    assert l2.flights[n] == l2.flights[n + 1] == Flight(l.server, ForCallback);
    var l3 := Perform(l2, reply);
    assert l3.flights[n] == Flight(l.server, ForCallback);
    es := [send, send, reply, reply];
    ls := [l, l1, l2, l3, Perform(l3, reply)];
  }

  /**
   Two uses that overlap both refresh; if the second is refused, for instance because the first spent the refresh
   token, its clearing wipes the tokens that the first has just stored.
   */
  lemma LateRefusalWipes(l: Life, now: int, payload: TokenPayload) returns (ls: seq<Life>, es: seq<Event>)
    requires Asks(l.server, now) && payload.accessToken != ""
    ensures |es| == 4 && |ls| == 5 && ls[0] == l
    ensures forall i :: 0 <= i < 4 ==> Enabled(ls[i], es[i]) && ls[i + 1] == Perform(ls[i], es[i])
    ensures payload.accessToken != l.server.accessToken.value ==> ls[3].server.accessToken == Some(payload.accessToken)
    ensures ls[4].server.accessToken == None
  {
    var n := |l.flights|;
    var l1 := Perform(l, LoadUse(now));
    var l2 := Perform(l1, LoadUse(now));
    assert l2.flights[n] == l2.flights[n + 1] == Flight(l.server, ForUse);
    var first, second := CommitUse(n, now, Answered(payload)), CommitUse(n, now, Refused);
    var l3 := Perform(l2, first);
    assert l3.flights[n] == Flight(l.server, ForUse);
    es := [LoadUse(now), LoadUse(now), first, second];
    ls := [l, l1, l2, l3, Perform(l3, second)];
  }

  // ---- what requests do to the row when they land ----

  /**
   A start that handed out a URL leaves the state of that URL and its verifier pending, so that the callback finds the
   server and can exchange; a start that failed leaves the row alone.
   */
  lemma StartLands(transport: string, url: string, ls: seq<Life>, es: seq<Event>, k: nat)
    requires IsRun(transport, url, ls, es) && k < |es| && es[k].CommitStart?
    ensures es[k].link.Some? ==>
              var s := ls[k + 1].server;
              && s.state == Some(es[k].link.value.state) && s.codeVerifier == Some(es[k].input.verifier)
              && CanExchange(s)
    ensures es[k].link.None? ==> ls[k + 1].server == ls[k].server
  {
    hide Chosen, CanStart;
    LifeIsSound(transport, url, ls, es, k);
    assert SoundFlight(ls[k], ls[k].flights[es[k].i]);
  }

  /** A callback that exchanges its code leaves its token and no pending state, whatever happened since it was sent. */
  lemma ExchangeLands(transport: string, url: string, ls: seq<Life>, es: seq<Event>, k: nat)
    requires IsRun(transport, url, ls, es) && k < |es| && es[k].Reply?
    requires var loaded := ls[k].flights[es[k].i].loaded;
             && Exchanges(loaded, es[k].now, es[k].reply)
             && Some(es[k].reply.payload.accessToken) != loaded.accessToken
    ensures var s := ls[k + 1].server;
            && s.accessToken == Some(es[k].reply.payload.accessToken)
            && s.state == None && s.codeVerifier == None
    ensures es[k].reply.payload.refreshToken != ""
            && Some(es[k].reply.payload.refreshToken) != ls[k].flights[es[k].i].loaded.refreshToken ==>
              ls[k + 1].server.refreshToken == Some(es[k].reply.payload.refreshToken)
  {
    LifeIsSound(transport, url, ls, es, k);
    assert SoundFlight(ls[k], ls[k].flights[es[k].i]);
  }

  /**
   A reset leaves no token and no pending state that it found when it loaded the row; what was stored since, where it
   found nothing, stays.
   */
  lemma ResetLands(l: Life, i: nat)
    requires Enabled(l, CommitReset(i))
    ensures var f, s, t := l.flights[i].loaded, l.server, Perform(l, CommitReset(i)).server;
            && t.accessToken == (if f.accessToken.Some? then None else s.accessToken)
            && t.refreshToken == (if f.refreshToken.Some? then None else s.refreshToken)
            && t.expiresAt == (if f.expiresAt.Some? then None else s.expiresAt)
            && t.state == (if f.state.Some? then None else s.state)
            && t.codeVerifier == (if f.codeVerifier.Some? then None else s.codeVerifier)
            && t.scope == s.scope && SameServer(s, t)
  {
  }

  /** So a reset that overlaps a callback can leave its fresh token in force: it found none to clear. */
  lemma LateResetKeeps(l: Life, now: int, payload: TokenPayload) returns (ls: seq<Life>, es: seq<Event>)
    requires l.server.state.Some? && CanExchange(l.server) && l.server.accessToken == None && payload.accessToken != ""
    ensures |es| == 4 && |ls| == 5 && ls[0] == l && es[1] == LoadReset && es[3].CommitReset?
    ensures forall i :: 0 <= i < 4 ==> Enabled(ls[i], es[i]) && ls[i + 1] == Perform(ls[i], es[i])
    ensures ls[4].server.accessToken == Some(payload.accessToken)
  {
    hide Started, Refreshed, Asks;
    var n := |l.flights|;
    var l1 := Perform(l, Send(l.server.state.value));
    var l2 := Perform(l1, LoadReset);
    assert l2.flights[n] == Flight(l.server, ForCallback) && l2.flights[n + 1] == Flight(l.server, ForReset);
    var reply := Reply(n, now, Answered(payload));
    var l3 := Perform(l2, reply);
    assert l3.flights[n] == Flight(l.server, ForReset);
    es := [Send(l.server.state.value), LoadReset, reply, CommitReset(n)];
    ls := [l, l1, l2, l3, Perform(l3, CommitReset(n))];
  }

  lemma AddressStep(l: Life, e: Event)
    requires Enabled(l, e)
    ensures var s := Perform(l, e).server;
            if e.Edit? then s.transport == e.transport && s.url == e.url
            else s.transport == l.server.transport && s.url == l.server.url
  {
  }

  /** An administrator's edit stands until the next one, whatever requests were in flight when it was made. */
  lemma {:induction false} EditsStand(transport: string, url: string, ls: seq<Life>, es: seq<Event>, i: nat, k: nat)
    requires IsRun(transport, url, ls, es) && i < k <= |es| && es[i].Edit?
    requires forall j :: i < j < k ==> !es[j].Edit?
    ensures ls[k].server.transport == es[i].transport && ls[k].server.url == es[i].url
  {
    hide Perform, Enabled;
    AddressStep(ls[k - 1], es[k - 1]);
    if i < k - 1 {
      EditsStand(transport, url, ls, es, i, k - 1);
    }
  }

  /**
   So the token endpoint is asked exactly when `needs_refresh` says so: the stale return for want of an
   endpoint is dead.
   */
  lemma AsksExactlyWhenNeeded(transport: string, url: string, ls: seq<Life>, es: seq<Event>, k: nat, now: int)
    requires IsRun(transport, url, ls, es) && k <= |es|
    ensures Asks(ls[k].server, now) <==> NeedsRefresh(ls[k].server, now)
  {
    LifeIsSound(transport, url, ls, es, k);
  }

  /**
   The displayed status agrees: "expired" is a token that will be used although it is stale, for want of a
   refresh token.
   */
  lemma StatusTellsWhatUseDoes(transport: string, url: string, ls: seq<Life>, es: seq<Event>, k: nat, now: int)
    requires IsRun(transport, url, ls, es) && k <= |es|
    ensures var s := ls[k].server;
            && (StatusOf(s, now) == NotApplicable <==> s.transport != "http")
            && (s.transport == "http" ==>
                  && (StatusOf(s, now) == NotAuthorized <==> !Truthy(s.accessToken))
                  && (StatusOf(s, now) == Expired <==>
                        Truthy(s.accessToken) && IsTokenExpired(s.expiresAt, now) && !Asks(s, now))
                  && (StatusOf(s, now) == Authorized <==>
                        Truthy(s.accessToken) && (!IsTokenExpired(s.expiresAt, now) || Asks(s, now))))
  {
    LifeIsSound(transport, url, ls, es, k);
  }

  /** A verifier that was exchanged is never pending again. */
  lemma {:induction false} SpentVerifierStaysSpent(
    transport: string, url: string, ls: seq<Life>, es: seq<Event>, i: nat, j: nat, v: string)
    requires IsRun(transport, url, ls, es) && i <= j <= |es| && v in ls[i].exchanged
    ensures v in ls[j].exchanged && ls[j].server.codeVerifier != Some(v)
  {
    LifeIsSound(transport, url, ls, es, j);
    if i < j {
      SpentVerifierStaysSpent(transport, url, ls, es, i, j - 1, v);
    }
  }
}
