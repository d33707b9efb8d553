/** Properties of the `TnApi` credential lifecycle that relate several
    steps: the request protocol's branches one by one, and sequences of
    calls sharing one client and one credential file. */
module TnApiProperties {
  import opened Wrappers
  import opened Enums
  import opened Validators
  import opened Environment
  import opened TnApi

  /** The headers of the first send when the client holds `creds`. */
  function FirstHeaders(creds: Credentials, tokenType: TokenType, headers: Headers): Headers
    requires tokenType.Key() in creds
  {
    Authorize(headers, creds[tokenType.Key()])
  }

  /** The network answers the first send with 401. */
  predicate FirstUnauthorized(net: Network, creds: Credentials, tokenType: TokenType, headers: Headers)
    requires tokenType.Key() in creds
  {
    var reply := net.api(0, FirstHeaders(creds, tokenType, headers));
    reply.ApiResponse? && reply.status == 401
  }

  /** The authentication endpoint's reply counts as a successful fetch. */
  predicate FetchSucceeds(reply: AuthReply) {
    reply.AuthResponse? && !RaisesForStatus(reply.status) && reply.data != map[]
  }

  // ---------------------------------------------------------------------
  // Lazy authentication
  // ---------------------------------------------------------------------

  /** With nothing in memory, exactly one fetch precedes the first send. If
      it fails its error surfaces and nothing is sent; if it succeeds, the
      first send carries the fetched token and the fetched map is kept. */
  lemma LazyFetchBeforeFirstSend(
    c: Client, fs: FileSystem, net: Network,
    httpMethod: string, endpoint: string, tokenType: TokenType, headers: Headers)
    requires c.credentials == map[]
    ensures var o := Request(c, fs, net, httpMethod, endpoint, tokenType, headers);
      var reply := net.auth(0, AuthHeaders(c));
      && o.fetches >= 1
      && (!FetchSucceeds(reply) ==>
            && o.sent == [] && o.fetches == 1 && o.client == c && o.fs == fs
            && o.result == FetchNewCredentials(fs, reply).result.PropagateFailure())
      && (FetchSucceeds(reply) && tokenType.Key() in reply.data ==>
            && |o.sent| >= 1
            && o.sent[0].headers == FirstHeaders(reply.data, tokenType, headers)
            && (!FirstUnauthorized(net, reply.data, tokenType, headers) ==>
                  o.fetches == 1 && o.client.credentials == reply.data))
  {
    var reply := net.auth(0, AuthHeaders(c));
    var r0 := EnsureCredentials(c, fs, net);
    assert r0.fetches == 1;
    if FetchSucceeds(reply) {
      assert r0.result == Success(reply.data);
    }
  }

  /** After a 401 to the first send, the resend's reply, if there is one,
      decides the result. */
  lemma AfterUnauthorizedReplyDecides(
    c0: Client, fs: FileSystem, fetches: nat, net: Network,
    first: Sent, key: string, headers: Headers)
    requires net.api(0, first.headers).ApiResponse? && net.api(0, first.headers).status == 401
    requires SentAs(first, first.httpMethod, first.url, headers, c0.timeout)
    ensures LastReplyDecides(AfterUnauthorized(c0, fs, fetches, net, first, key, headers), net)
  {
    var r1 := Reconcile(c0, fs, fetches, net);
    if r1.result.Failure? {
      var o := AfterUnauthorized(c0, fs, fetches, net, first, key, headers);
      assert ReplyTo(net, o.sent, 0) == net.api(0, first.headers);
    }
  }

  /** From the first send on, a last reply that is not a 401 to the first
      send decides the result. */
  lemma SendFirstReplyDecides(
    c0: Client, fs: FileSystem, fetches: nat, net: Network,
    httpMethod: string, url: string, key: string, headers: Headers)
    ensures LastReplyDecides(SendFirst(c0, fs, fetches, net, httpMethod, url, key, headers), net)
  {
    if key in c0.credentials {
      var first := Sent(httpMethod, url, Authorize(headers, c0.credentials[key]), c0.timeout);
      var reply := net.api(0, first.headers);
      if reply.ApiResponse? && reply.status == 401 {
        AfterUnauthorizedReplyDecides(c0, ApplyRacer(fs, net.racer), fetches, net, first, key, headers);
      }
    }
  }

  /** The converse of the result contract of `Request`: whenever the last
      reply is not a 401 to the first send, it decides the result. */
  lemma RequestLastReplyDecides(
    c: Client, fs: FileSystem, net: Network,
    httpMethod: string, endpoint: string, tokenType: TokenType, headers: Headers)
    ensures LastReplyDecides(Request(c, fs, net, httpMethod, endpoint, tokenType, headers), net)
  {
    var r0 := EnsureCredentials(c, fs, net);
    if r0.result.Success? {
      SendFirstReplyDecides(c.(credentials := r0.result.value), r0.fs, r0.fetches, net,
                            httpMethod, c.baseUrl + endpoint, tokenType.Key(), headers);
    }
  }

  /** The most common path: with the token cached and a first reply other
      than 401, that reply alone decides the result. An accepted JSON reply
      returns its body, a rejected status raises, and an unreachable send
      raises `TransportError`. */
  lemma CachedReplyDecidesResult(
    c: Client, fs: FileSystem, net: Network,
    httpMethod: string, endpoint: string, tokenType: TokenType, headers: Headers)
    requires c.credentials != map[] && tokenType.Key() in c.credentials
    requires !FirstUnauthorized(net, c.credentials, tokenType, headers)
    ensures var o := Request(c, fs, net, httpMethod, endpoint, tokenType, headers);
      var reply := net.api(0, FirstHeaders(c.credentials, tokenType, headers));
      && |o.sent| == 1
      && (reply.Unreachable? ==> o.result == Failure(TransportError))
      && (reply.ApiResponse? ==> o.result == Finish(httpMethod, reply))
      && (reply.ApiResponse? && !RaisesForStatus(reply.status) && reply.isJson ==> o.result == Success(reply.body))
  {
    assert EnsureCredentials(c, fs, net) == Resolved(Success(c.credentials), fs, 0);
  }

  /** With credentials in memory, no fetch precedes the first send, which
      carries the cached token; unless it is answered 401, nothing else
      happens to the client. */
  lemma CachedCredentialsNoFetch(
    c: Client, fs: FileSystem, net: Network,
    httpMethod: string, endpoint: string, tokenType: TokenType, headers: Headers)
    requires c.credentials != map[] && tokenType.Key() in c.credentials
    ensures var o := Request(c, fs, net, httpMethod, endpoint, tokenType, headers);
      && |o.sent| >= 1
      && o.sent[0].headers == FirstHeaders(c.credentials, tokenType, headers)
      && (!FirstUnauthorized(net, c.credentials, tokenType, headers) ==>
            o.fetches == 0 && o.client == c && |o.sent| == 1 && o.fs == ApplyRacer(fs, net.racer))
  {
    assert EnsureCredentials(c, fs, net) == Resolved(Success(c.credentials), fs, 0);
  }

  /** A token kind missing from memory raises `KeyError` before any send. */
  lemma MissingKeyRaisesBeforeSend(
    c: Client, fs: FileSystem, net: Network,
    httpMethod: string, endpoint: string, tokenType: TokenType, headers: Headers)
    requires c.credentials != map[] && tokenType.Key() !in c.credentials
    ensures var o := Request(c, fs, net, httpMethod, endpoint, tokenType, headers);
      o == RequestOutcome(Failure(KeyError(tokenType.Key())), c, fs, 0, [])
  {
    assert EnsureCredentials(c, fs, net) == Resolved(Success(c.credentials), fs, 0);
  }

  // ---------------------------------------------------------------------
  // 401 reconciliation
  // ---------------------------------------------------------------------

  /** After a 401, a credential file that is non-empty and differs from
      memory is trusted: memory becomes the file's map, no fetch happens,
      and the one resend carries the file's token. */
  lemma NewerDiskIsTrusted(
    c: Client, fs: FileSystem, net: Network,
    httpMethod: string, endpoint: string, tokenType: TokenType, headers: Headers)
    requires c.credentials != map[] && tokenType.Key() in c.credentials
    requires FirstUnauthorized(net, c.credentials, tokenType, headers)
    requires var disk := LoadTokenFromDisk(ApplyRacer(fs, net.racer));
      disk.Success? && disk.value != map[] && disk.value != c.credentials
    ensures var o := Request(c, fs, net, httpMethod, endpoint, tokenType, headers);
      var disk := LoadTokenFromDisk(ApplyRacer(fs, net.racer)).value;
      && o.fetches == 0
      && o.client.credentials == disk
      && o.fs == ApplyRacer(fs, net.racer)
      && (tokenType.Key() in disk ==>
            && |o.sent| == 2
            && o.sent[1].headers == FirstHeaders(disk, tokenType, headers))
  {
    assert EnsureCredentials(c, fs, net) == Resolved(Success(c.credentials), fs, 0);
  }

  /** After a 401, an empty credential file or one equal to memory leads to
      exactly one fetch; a successful fetch is kept and resent with, a failed
      one surfaces as authentication failure after the single send. */
  lemma StaleDiskFetches(
    c: Client, fs: FileSystem, net: Network,
    httpMethod: string, endpoint: string, tokenType: TokenType, headers: Headers)
    requires c.credentials != map[] && tokenType.Key() in c.credentials
    requires FirstUnauthorized(net, c.credentials, tokenType, headers)
    requires var disk := LoadTokenFromDisk(ApplyRacer(fs, net.racer));
      disk == Success(map[]) || disk == Success(c.credentials)
    ensures var o := Request(c, fs, net, httpMethod, endpoint, tokenType, headers);
      var reply := net.auth(0, AuthHeaders(c));
      && o.fetches == 1
      && (FetchSucceeds(reply) ==>
            && o.client.credentials == reply.data
            && o.fs == SaveCredentialsToDisk(ApplyRacer(fs, net.racer), reply.data)
            && (tokenType.Key() in reply.data ==>
                  |o.sent| == 2 && o.sent[1].headers == FirstHeaders(reply.data, tokenType, headers)))
      && (!FetchSucceeds(reply) ==>
            && o.client == c && |o.sent| == 1
            && o.result.Failure? && o.result.error.AuthenticationFailed?)
  {
    assert EnsureCredentials(c, fs, net) == Resolved(Success(c.credentials), fs, 0);
  }

  /** The resend stage alone: a 401 to the second send surfaces as the
      HTTP error carrying that reply. */
  lemma ResendUnauthorizedSurfaces(
    c0: Client, fs: FileSystem, fetches: nat, net: Network,
    first: Sent, key: string, headers: Headers)
    requires net.api(0, first.headers).ApiResponse? && net.api(0, first.headers).status == 401
    requires SentAs(first, first.httpMethod, first.url, headers, c0.timeout)
    ensures var o := AfterUnauthorized(c0, fs, fetches, net, first, key, headers);
      |o.sent| == 2 && ReplyTo(net, o.sent, 1).ApiResponse? && ReplyTo(net, o.sent, 1).status == 401 ==>
        o.result == Failure(HttpError(401, ReplyTo(net, o.sent, 1).body))
  {
    var o := AfterUnauthorized(c0, fs, fetches, net, first, key, headers);
    if |o.sent| == 2 && ReplyTo(net, o.sent, 1).ApiResponse? && ReplyTo(net, o.sent, 1).status == 401 {
      var r1 := Reconcile(c0, fs, fetches, net);
      assert r1.result.Success?;
      assert !RetriedOut(first.httpMethod, 401) by { assert 401 !in RetryStatuses; }
    }
  }

  /** A 401 to the resend is not retried again: it surfaces as the HTTP
      error `raise_for_status()` raises, not as an authentication failure. */
  lemma SecondUnauthorizedSurfaces(
    c: Client, fs: FileSystem, net: Network,
    httpMethod: string, endpoint: string, tokenType: TokenType, headers: Headers)
    ensures var o := Request(c, fs, net, httpMethod, endpoint, tokenType, headers);
      |o.sent| == 2 && ReplyTo(net, o.sent, 1).ApiResponse? && ReplyTo(net, o.sent, 1).status == 401 ==>
        o.result == Failure(HttpError(401, ReplyTo(net, o.sent, 1).body))
  {
    var o := Request(c, fs, net, httpMethod, endpoint, tokenType, headers);
    if |o.sent| == 2 && ReplyTo(net, o.sent, 1).ApiResponse? && ReplyTo(net, o.sent, 1).status == 401 {
      var r0 := EnsureCredentials(c, fs, net);
      assert r0.result.Success?;
      var c0 := c.(credentials := r0.result.value);
      var key := tokenType.Key();
      assert key in c0.credentials;
      var first := Sent(httpMethod, c.baseUrl + endpoint, Authorize(headers, c0.credentials[key]), c0.timeout);
      var fs1 := ApplyRacer(r0.fs, net.racer);
      assert o == AfterUnauthorized(c0, fs1, r0.fetches, net, first, key, headers);
      ResendUnauthorizedSurfaces(c0, fs1, r0.fetches, net, first, key, headers);
    }
  }

  /** After a 401, a credential file that is not UTF-8 makes the re-read
      raise: the request ends with `UnicodeDecodeError` after its single
      send, without a fetch and with memory unchanged. */
  lemma UndecodableDiskRaisesAfterUnauthorized(
    c: Client, fs: FileSystem, net: Network,
    httpMethod: string, endpoint: string, tokenType: TokenType, headers: Headers)
    requires c.credentials != map[] && tokenType.Key() in c.credentials
    requires FirstUnauthorized(net, c.credentials, tokenType, headers)
    requires ApplyRacer(fs, net.racer).target == Undecodable
    ensures var o := Request(c, fs, net, httpMethod, endpoint, tokenType, headers);
      && o.result == Failure(UnicodeDecodeError)
      && |o.sent| == 1 && o.fetches == 0 && o.client == c
  {
    assert EnsureCredentials(c, fs, net) == Resolved(Success(c.credentials), fs, 0);
  }

  /** A status the retry policy gives up on, for a GET or POST, raises
      `RetryError` from the first send itself: it is never mistaken for a
      401, so there is no reconciliation, no fetch and no resend. */
  lemma RetriedOutFirstSendRaises(
    c: Client, fs: FileSystem, net: Network,
    httpMethod: string, endpoint: string, tokenType: TokenType, headers: Headers)
    requires c.credentials != map[] && tokenType.Key() in c.credentials
    requires var reply := net.api(0, FirstHeaders(c.credentials, tokenType, headers));
      reply.ApiResponse? && RetriedOut(httpMethod, reply.status)
    ensures var o := Request(c, fs, net, httpMethod, endpoint, tokenType, headers);
      var reply := net.api(0, FirstHeaders(c.credentials, tokenType, headers));
      && o.result == Failure(RetryError(reply.status))
      && |o.sent| == 1 && o.fetches == 0 && o.client == c
  {
    assert !FirstUnauthorized(net, c.credentials, tokenType, headers) by { assert 401 !in RetryStatuses; }
    CachedCredentialsNoFetch(c, fs, net, httpMethod, endpoint, tokenType, headers);
    CachedReplyDecidesResult(c, fs, net, httpMethod, endpoint, tokenType, headers);
  }

  /** A request that makes no fetch writes nothing to the credential file:
      the file afterwards is as before, or as the concurrent writer left it. */
  lemma NoFetchNoWrite(
    c: Client, fs: FileSystem, net: Network,
    httpMethod: string, endpoint: string, tokenType: TokenType, headers: Headers)
    ensures var o := Request(c, fs, net, httpMethod, endpoint, tokenType, headers);
      o.fetches == 0 ==> o.fs == fs || o.fs == ApplyRacer(fs, net.racer)
  {
    var r0 := EnsureCredentials(c, fs, net);
    if r0.result.Success? && r0.fetches == 0 {
      assert r0.fs == fs;
      var o := SendFirst(c.(credentials := r0.result.value), r0.fs, 0, net,
                         httpMethod, c.baseUrl + endpoint, tokenType.Key(), headers);
      assert o == Request(c, fs, net, httpMethod, endpoint, tokenType, headers);
    }
  }

  /** One request can fetch twice: an empty memory triggers a fetch, whose
      result is also what the file then holds, so a 401 finds the file equal
      to memory and fetches again. */
  lemma TwoFetchesInOneRequest(c: Client)
    requires c.credentials == map[]
    ensures var fs := FileSystem(Missing, Missing, NoFault);
      var net := Network(
        (i: nat, h: Headers) => AuthResponse(200, "", map["prod_token" := "t"]),
        (i: nat, h: Headers) => if i == 0 then ApiResponse(401, "", false) else ApiResponse(200, "{}", true),
        None);
      var o := Request(c, fs, net, "GET", "/test", Production, map[]);
      o.fetches == 2 && |o.sent| == 2 && o.result == Success("{}")
  {
    var fs := FileSystem(Missing, Missing, NoFault);
    var net := Network(
      (i: nat, h: Headers) => AuthResponse(200, "", map["prod_token" := "t"]),
      (i: nat, h: Headers) => if i == 0 then ApiResponse(401, "", false) else ApiResponse(200, "{}", true),
      None);
    var data := map["prod_token" := "t"];
    assert "prod_token" in data;
    assert net.auth(0, AuthHeaders(c)) == AuthResponse(200, "", data);
    var r0 := EnsureCredentials(c, fs, net);
    assert r0 == Resolved(Success(data), SaveCredentialsToDisk(fs, data), 1);
    var c0 := c.(credentials := data);
    var fs1 := ApplyRacer(r0.fs, net.racer);
    assert LoadTokenFromDisk(fs1) == Success(data);
    assert net.auth(1, AuthHeaders(c0)) == AuthResponse(200, "", data);
    var r1 := Reconcile(c0, fs1, 1, net);
    assert r1 == Resolved(Success(data), SaveCredentialsToDisk(fs1, data), 2);
  }

  // ---------------------------------------------------------------------
  // Sequences of calls
  // ---------------------------------------------------------------------

  /** Once a request has succeeded, the next request on the same client
      makes no fetch before its first send. */
  lemma SuccessfulRequestCachesCredentials(
    c: Client, fs: FileSystem, net: Network, net2: Network,
    httpMethod: string, endpoint: string, tokenType: TokenType, headers: Headers)
    requires Request(c, fs, net, httpMethod, endpoint, tokenType, headers).result.Success?
    ensures var o := Request(c, fs, net, httpMethod, endpoint, tokenType, headers);
      var o2 := Request(o.client, o.fs, net2, httpMethod, endpoint, tokenType, headers);
      o2.client.credentials != map[]
      && EnsureCredentials(o.client, o.fs, net2) == Resolved(Success(o.client.credentials), o.fs, 0)
  {
    var o := Request(c, fs, net, httpMethod, endpoint, tokenType, headers);
    assert o.client.credentials != map[];
  }

  /** `authenticate` refreshes only the file. A later request that is
      answered 401 finds the file newer than memory and uses it without
      fetching again. */
  lemma AuthenticateThenUnauthorizedUsesDisk(
    c: Client, fs: FileSystem, net: Network, net2: Network,
    httpMethod: string, endpoint: string, tokenType: TokenType, headers: Headers)
    requires fs.fault == NoFault && net2.racer.None?
    requires FetchSucceeds(net.auth(0, AuthHeaders(c)))
    requires c.credentials != map[] && tokenType.Key() in c.credentials
    requires c.credentials != net.auth(0, AuthHeaders(c)).data
    requires FirstUnauthorized(net2, c.credentials, tokenType, headers)
    ensures var a := Authenticate(c, fs, net);
      var o := Request(a.client, a.fs, net2, httpMethod, endpoint, tokenType, headers);
      var newer := net.auth(0, AuthHeaders(c)).data;
      && a.client.credentials == c.credentials
      && o.fetches == 0
      && o.client.credentials == newer
  {
    var a := Authenticate(c, fs, net);
    var newer := net.auth(0, AuthHeaders(c)).data;
    assert LoadTokenFromDisk(a.fs) == Success(newer);
    assert ApplyRacer(a.fs, net2.racer) == a.fs;
    NewerDiskIsTrusted(a.client, a.fs, net2, httpMethod, endpoint, tokenType, headers);
  }

  /** The "differs from memory" rule is not "newer than memory": when a
      save failed, the file still holds the credentials the client already
      replaced, and after the next 401 they are trusted again without a
      fetch, so the resend carries the old token. */
  lemma OlderDiskTrustedAfterFailedSave(oldToken: string, newToken: string)
    requires oldToken != newToken
    ensures var c := Client("https://api.tripninja.io", "id", "secret", "credentials.json", 30,
                            map["prod_token" := oldToken]);
      var fs := FileSystem(Stored(map["prod_token" := oldToken]), Missing, WriteDenied);
      var net := Network(
        (i: nat, h: Headers) => AuthResponse(200, "", map["prod_token" := newToken]),
        (i: nat, h: Headers) => if i == 0 then ApiResponse(401, "", false) else ApiResponse(200, "{}", true),
        None);
      var o1 := Request(c, fs, net, "GET", "/test", Production, map[]);
      var o2 := Request(o1.client, o1.fs, net, "GET", "/test", Production, map[]);
      && o1.fetches == 1 && o1.client.credentials == map["prod_token" := newToken]
      && o1.fs == fs
      && o2.fetches == 0 && o2.client.credentials == map["prod_token" := oldToken]
      && o2.sent[1].headers["Authorization"] == "Token " + oldToken
  {
    var newMap := map["prod_token" := newToken];
    var oldMap := map["prod_token" := oldToken];
    assert oldMap != newMap by { assert oldMap["prod_token"] != newMap["prod_token"]; }
    var c := Client("https://api.tripninja.io", "id", "secret", "credentials.json", 30, oldMap);
    var fs := FileSystem(Stored(oldMap), Missing, WriteDenied);
    var net := Network(
      (i: nat, h: Headers) => AuthResponse(200, "", newMap),
      (i: nat, h: Headers) => if i == 0 then ApiResponse(401, "", false) else ApiResponse(200, "{}", true),
      None);
    assert ApplyRacer(fs, net.racer) == fs;
    assert FetchSucceeds(net.auth(0, AuthHeaders(c))) by { assert "prod_token" in newMap; }
    StaleDiskFetches(c, fs, net, "GET", "/test", Production, map[]);
    var o1 := Request(c, fs, net, "GET", "/test", Production, map[]);
    assert o1.client == c.(credentials := newMap);
    assert o1.fs == fs;
    NewerDiskIsTrusted(o1.client, o1.fs, net, "GET", "/test", Production, map[]);
  }

  // ---------------------------------------------------------------------
  // Construction
  // ---------------------------------------------------------------------

  /** The host answers the defaults of a `TnApi()` call with no arguments:
      both environment variables are set, the working directory exists, and
      the production URL parses into its obvious components. */
  predicate DefaultsAvailable(host: Host) {
    && host.getenv(ClientIdVariable).Some? && host.getenv(ClientIdVariable).value != ""
    && host.getenv(ClientSecretVariable).Some? && host.getenv(ClientSecretVariable).value != ""
    && host.resolve(DefaultCredentialFile).parentExists
    && host.urlparse(ProductionApiUrl) == Some(ParsedUrl("https", "api.tripninja.io", "", "", ""))
  }

  /** `TnApi()` with every default: the identity comes from the environment,
      the production URL is accepted and kept as written, the timeout is 30
      seconds, and construction fails only on a file that cannot be decoded. */
  lemma DefaultConstruction(host: Host, fs: FileSystem)
    requires DefaultsAvailable(host)
    ensures var r := Init(None, None, DefaultCredentialFile, ProductionApiUrl, DefaultTimeout, host, fs);
      && (r.Failure? <==> fs.target == Undecodable)
      && (r.Success? ==>
            && r.value.baseUrl == "https://api.tripninja.io"
            && r.value.timeout == 30
            && r.value.clientId == host.getenv(ClientIdVariable).value
            && r.value.clientSecret == host.getenv(ClientSecretVariable).value
            && r.value.credentialFile == host.resolve("credentials.json").path)
  {
    assert StripTrailingSlashes(ProductionApiUrl) == ProductionApiUrl;
  }

  /** A default client constructed over a missing or corrupt credential file
      starts with nothing in memory, so its first request with the default
      token kind fetches once before sending, and after a successful request
      the next one fetches nothing before its send. */
  lemma FreshClientFetchesOnce(
    host: Host, fs: FileSystem, net: Network, net2: Network, endpoint: string)
    requires DefaultsAvailable(host)
    requires fs.target.Missing? || fs.target.Corrupt?
    ensures var r := Init(None, None, DefaultCredentialFile, ProductionApiUrl, DefaultTimeout, host, fs);
      && r.Success? && r.value.credentials == map[]
      && var o := Request(r.value, fs, net, "GET", endpoint, DefaultTokenType, map[]);
      && o.fetches >= 1
      && (o.result.Success? ==>
            EnsureCredentials(o.client, o.fs, net2) == Resolved(Success(o.client.credentials), o.fs, 0))
  {
    DefaultConstruction(host, fs);
    var c := Init(None, None, DefaultCredentialFile, ProductionApiUrl, DefaultTimeout, host, fs).value;
    LazyFetchBeforeFirstSend(c, fs, net, "GET", endpoint, DefaultTokenType, map[]);
  }

  /** Stripping trailing slashes is idempotent, so the stored base URL is
      its own canonical form. */
  lemma StripIdempotent(url: string)
    ensures StripTrailingSlashes(StripTrailingSlashes(url)) == StripTrailingSlashes(url)
  {
    var r := StripTrailingSlashes(url);
    assert |r| == 0 || r[|r| - 1] != '/';
  }
}
