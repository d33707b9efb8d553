/** The `TnApi` client (src/tn_sdk/core/tn_api.py) as a functional state
    machine: the client record holds the in-memory credential map, and every
    operation takes the file system and network explicitly and returns the
    new client, the new file system and what it did on the network. */
module TnApi {
  import opened Wrappers
  import opened Enums
  import opened Exceptions
  import opened Validators
  import opened Environment

  const ProductionApiUrl := "https://api.tripninja.io"
  const DefaultCredentialFile := "credentials.json"
  const DefaultTimeout := 30
  const DefaultCompressionLevel := 6
  const ClientIdVariable := "TN_SDK_CLIENT_ID"
  const ClientSecretVariable := "TN_SDK_CLIENT_SECRET"
  const MissingIdentityMessage := "Client ID and Client Secret are required."
  const InvalidUrlMessage := "Invalid API URL."
  const NotTextMessage := "Input must be a JSON-encoded string"
  const AuthFailedMessage := "Authentication failed"
  const InvalidAuthResponseMessage := "Invalid API Response"
  const AuthorizationHeader := "Authorization"

  /** What the client raises. `AuthenticationFailed` is
      `TnAuthenticationFailedException`; `UnicodeDecodeError` escapes from
      reading a credential file that is not UTF-8; `HttpError` and
      `RetryError` are the transport's exceptions surfacing unchanged,
      `JsonDecodeError` is what `response.json()` raises on a body that is
      not JSON, and
      `TransportError` stands for any other `RequestException` a send
      raises (a connection error, a timeout). */
  datatype Error =
    | ValueError(message: string)
    | FileNotFoundError(message: string)
    | InvalidData(exception: TnApiException)
    | AuthenticationFailed(message: string)
    | KeyError(key: string)
    | UnicodeDecodeError
    | HttpError(status: int, body: string)
    | RetryError(status: int)
    | JsonDecodeError(body: string)
    | TransportError

  /** The client's fields. Only `credentials` ever changes. */
  datatype Client = Client(
    baseUrl: string,
    clientId: string,
    clientSecret: string,
    credentialFile: string,
    timeout: int,
    credentials: Credentials)

  /** A resolved credential-file path and whether its directory exists. */
  datatype ResolvedPath = ResolvedPath(path: string, parent: string, parentExists: bool)

  /** The host facilities the constructor consults: environment variables,
      path resolution and URL parsing (`None` when parsing raises). */
  datatype Host = Host(
    getenv: string -> Option<string>,
    resolve: string -> ResolvedPath,
    urlparse: string -> Option<ParsedUrl>)

  // ---------------------------------------------------------------------
  // Construction
  // ---------------------------------------------------------------------

  /** `url.rstrip("/")`: the input without its run of trailing slashes. */
  function StripTrailingSlashes(url: string): (r: string)
    ensures |r| <= |url| && r == url[..|r|]
    ensures |r| == 0 || r[|r| - 1] != '/'
    ensures forall i :: |r| <= i < |url| ==> url[i] == '/'
  {
    if |url| > 0 && url[|url| - 1] == '/' then StripTrailingSlashes(url[..|url| - 1])
    else url
  }

  /** `given or os.getenv(name, "")`: an empty or missing argument falls
      back to the environment, and a missing variable to "". */
  function ArgumentOrEnv(given: Option<string>, name: string, host: Host): string {
    if given.Some? && given.value != "" then given.value else host.getenv(name).GetOr("")
  }

  function ClientIdOf(clientId: Option<string>, host: Host): string {
    ArgumentOrEnv(clientId, ClientIdVariable, host)
  }

  function ClientSecretOf(clientSecret: Option<string>, host: Host): string {
    ArgumentOrEnv(clientSecret, ClientSecretVariable, host)
  }

  /** `credential_file_path or "credentials.json"`, resolved. */
  function CredentialPathOf(credentialFilePath: string, host: Host): ResolvedPath {
    host.resolve(if credentialFilePath == "" then DefaultCredentialFile else credentialFilePath)
  }

  function MissingDirectoryMessage(parent: string): string {
    "Credential file Directory: " + parent + " not found."
  }

  /** `TnApi.__init__`: identity first, then the credential directory, then
      the URL; a client that passes all three starts with whatever the
      credential file holds, unless reading it raises. */
  function Init(
    clientId: Option<string>, clientSecret: Option<string>, credentialFilePath: string,
    tnApiUrl: string, timeout: int, host: Host, fs: FileSystem): (r: Result<Client, Error>)
    ensures var id := ClientIdOf(clientId, host);
      var secret := ClientSecretOf(clientSecret, host);
      var path := CredentialPathOf(credentialFilePath, host);
      var url := StripTrailingSlashes(tnApiUrl);
      && (r == Failure(ValueError(MissingIdentityMessage)) <==> id == "" || secret == "")
      && (r == Failure(FileNotFoundError(MissingDirectoryMessage(path.parent)))
          <==> id != "" && secret != "" && !path.parentExists)
      && (r == Failure(ValueError(InvalidUrlMessage))
          <==> id != "" && secret != "" && path.parentExists && !IsValidBaseUrl(host.urlparse(url)))
      && (r == Failure(UnicodeDecodeError)
          <==> id != "" && secret != "" && path.parentExists && IsValidBaseUrl(host.urlparse(url))
               && fs.target == Undecodable)
      && (r.Success? <==> id != "" && secret != "" && path.parentExists && IsValidBaseUrl(host.urlparse(url))
                          && fs.target != Undecodable)
    ensures r.Success? ==>
      && r.value.clientId == ClientIdOf(clientId, host) != ""
      && r.value.clientSecret == ClientSecretOf(clientSecret, host) != ""
      && r.value.baseUrl == StripTrailingSlashes(tnApiUrl)
      && r.value.credentialFile == CredentialPathOf(credentialFilePath, host).path
      && |r.value.baseUrl| <= |tnApiUrl|
      && tnApiUrl[..|r.value.baseUrl|] == r.value.baseUrl
      && (r.value.baseUrl == "" || r.value.baseUrl[|r.value.baseUrl| - 1] != '/')
      && IsValidBaseUrl(host.urlparse(r.value.baseUrl))
      && r.value.timeout == timeout
      && LoadTokenFromDisk(fs) == Success(r.value.credentials)
  {
    var url := StripTrailingSlashes(tnApiUrl);
    var id := ClientIdOf(clientId, host);
    var secret := ClientSecretOf(clientSecret, host);
    var path := CredentialPathOf(credentialFilePath, host);
    if id == "" || secret == "" then Failure(ValueError(MissingIdentityMessage))
    else if !path.parentExists then Failure(FileNotFoundError(MissingDirectoryMessage(path.parent)))
    else if !IsValidBaseUrl(host.urlparse(url)) then Failure(ValueError(InvalidUrlMessage))
    else
      match LoadTokenFromDisk(fs)
      case Failure(e) => Failure(e)
      case Success(creds) => Success(Client(url, id, secret, path.path, timeout, creds))
  }

  // ---------------------------------------------------------------------
  // Credential file
  // ---------------------------------------------------------------------

  /** `_load_token_from_disk`: a missing, unreadable or corrupt file reads
      as the empty map; only a file that is not UTF-8 makes it raise, since
      `UnicodeDecodeError` is neither of the exceptions it catches. */
  function LoadTokenFromDisk(fs: FileSystem): (r: Result<Credentials, Error>)
    ensures r.Failure? <==> fs.target == Undecodable
    ensures r.Failure? ==> r.error == UnicodeDecodeError
    ensures r.Success? && r.value != map[] ==> fs.target == Stored(r.value)
    ensures r == Success(map[]) <==> fs.target.Missing? || fs.target.Corrupt? || fs.target == Stored(map[])
  {
    match fs.target
    case Missing => Success(map[])
    case Corrupt => Success(map[])
    case Undecodable => Failure(UnicodeDecodeError)
    case Stored(data) => Success(data)
  }

  /** `_save_credentials_to_disk`: write the `.tmp` sibling, then replace
      the credential file with it; an OS error at either step is swallowed. */
  function SaveCredentialsToDisk(fs: FileSystem, tokenData: Credentials): (r: FileSystem)
    ensures r.fault == fs.fault
    ensures r.target == fs.target || r.target == Stored(tokenData)
    ensures fs.fault == NoFault ==> r.target == Stored(tokenData)
    ensures fs.fault != NoFault ==> r.target == fs.target
    ensures fs.fault == NoFault ==> LoadTokenFromDisk(r) == Success(tokenData)
    ensures fs.fault != NoFault ==> LoadTokenFromDisk(r) == LoadTokenFromDisk(fs)
  {
    match WriteTemp(fs, tokenData)
    case Failure(_) => fs
    case Success(written) =>
      match ReplaceTarget(written)
      case Failure(_) => written
      case Success(replaced) => replaced
  }

  // ---------------------------------------------------------------------
  // Authentication
  // ---------------------------------------------------------------------

  /** The headers of the POST to the authentication endpoint. */
  function AuthHeaders(c: Client): (h: Headers)
    ensures h.Keys == {"Content-Type", "X-Client-ID", "X-Client-Secret"}
    ensures h["Content-Type"] == "application/json"
    ensures h["X-Client-ID"] == c.clientId && h["X-Client-Secret"] == c.clientSecret
  {
    map["Content-Type" := "application/json", "X-Client-ID" := c.clientId, "X-Client-Secret" := c.clientSecret]
  }

  /** The outcome of one fetch: the credentials or the error it raised, and
      the file system after it. */
  datatype Fetched = Fetched(result: Result<Credentials, Error>, fs: FileSystem)

  /** `_fetch_new_credentials_from_api`, given the endpoint's reply. A
      successful, non-empty body is saved and returned; the client's
      in-memory credentials are not an input, so they cannot change here. */
  function FetchNewCredentials(fs: FileSystem, reply: AuthReply): (r: Fetched)
    ensures r.result.Success? <==> reply.AuthResponse? && !RaisesForStatus(reply.status) && reply.data != map[]
    ensures r.result.Success? ==> r.result.value == reply.data && r.fs == SaveCredentialsToDisk(fs, reply.data)
    ensures r.result.Success? && fs.fault == NoFault ==> LoadTokenFromDisk(r.fs) == Success(r.result.value)
    ensures r.result.Failure? ==> r.fs == fs && r.result.error.AuthenticationFailed?
    ensures reply.NoResponse? ==> r.result == Failure(AuthenticationFailed(AuthFailedMessage))
    ensures !reply.NoResponse? && RetriedOut("POST", reply.status) ==>
      r.result == Failure(AuthenticationFailed(AuthFailedMessage))
    ensures !reply.NoResponse? && RaisesForStatus(reply.status) && !RetriedOut("POST", reply.status) ==>
      r.result == Failure(AuthenticationFailed(AuthFailedMessage + ": " + reply.text))
    ensures reply.AuthResponse? && !RaisesForStatus(reply.status) && reply.data == map[] ==>
      r.result == Failure(AuthenticationFailed(InvalidAuthResponseMessage))
    ensures reply.UnparsedResponse? && !RaisesForStatus(reply.status) ==>
      r.result == Failure(AuthenticationFailed(AuthFailedMessage))
  {
    match reply
    case NoResponse => Fetched(Failure(AuthenticationFailed(AuthFailedMessage)), fs)
    case AuthResponse(status, text, data) =>
      if RetriedOut("POST", status) then
        Fetched(Failure(AuthenticationFailed(AuthFailedMessage)), fs)
      else if RaisesForStatus(status) then
        Fetched(Failure(AuthenticationFailed(AuthFailedMessage + ": " + text)), fs)
      else if data == map[] then
        Fetched(Failure(AuthenticationFailed(InvalidAuthResponseMessage)), fs)
      else
        Fetched(Success(data), SaveCredentialsToDisk(fs, data))
    case UnparsedResponse(status, text) =>
      if RetriedOut("POST", status) then
        Fetched(Failure(AuthenticationFailed(AuthFailedMessage)), fs)
      else if RaisesForStatus(status) then
        Fetched(Failure(AuthenticationFailed(AuthFailedMessage + ": " + text)), fs)
      else
        Fetched(Failure(AuthenticationFailed(AuthFailedMessage)), fs)
  }

  /** The outcome of `authenticate`: what it raised, the client and the file system. */
  datatype Authenticated = Authenticated(result: Result<(), Error>, client: Client, fs: FileSystem)

  /** `authenticate`: fetches and persists fresh credentials but leaves the
      in-memory credentials as they were. */
  function Authenticate(c: Client, fs: FileSystem, net: Network): (r: Authenticated)
    ensures r.client == c
    ensures var reply := net.auth(0, AuthHeaders(c));
      && (r.result.Success? <==> reply.AuthResponse? && !RaisesForStatus(reply.status) && reply.data != map[])
      && (r.result.Success? ==> r.fs == SaveCredentialsToDisk(fs, reply.data))
      && (r.result.Success? && fs.fault == NoFault ==> LoadTokenFromDisk(r.fs) == Success(reply.data))
      && (r.result.Failure? ==> r.fs == fs)
      && (r.result.Failure? ==> r.result == FetchNewCredentials(fs, reply).result.PropagateFailure())
  {
    var f := FetchNewCredentials(fs, net.auth(0, AuthHeaders(c)));
    match f.result
    case Failure(e) => Authenticated(Failure(e), c, f.fs)
    case Success(_) => Authenticated(Success(()), c, f.fs)
  }

  // ---------------------------------------------------------------------
  // Authenticated requests
  // ---------------------------------------------------------------------

  /** One request put on the wire. */
  datatype Sent = Sent(httpMethod: string, url: string, headers: Headers, timeout: int)

  /** The caller's headers with `Authorization: Token <token>` set. */
  function Authorize(headers: Headers, token: string): (h: Headers)
    ensures h.Keys == headers.Keys + {AuthorizationHeader}
    ensures h[AuthorizationHeader] == "Token " + token
    ensures forall k :: k in headers && k != AuthorizationHeader ==> h[k] == headers[k]
  {
    headers[AuthorizationHeader := "Token " + token]
  }

  /** Credentials obtained for a send, the file system after obtaining
      them, and the fetches made so far in this request. */
  datatype Resolved = Resolved(result: Result<Credentials, Error>, fs: FileSystem, fetches: nat)

  /** Lines 188-189: fetch only when nothing is held in memory. */
  function EnsureCredentials(c: Client, fs: FileSystem, net: Network): (r: Resolved)
    ensures c.credentials != map[] ==> r == Resolved(Success(c.credentials), fs, 0)
    ensures c.credentials == map[] ==> r.fetches == 1
    ensures c.credentials == map[] ==>
      var f := FetchNewCredentials(fs, net.auth(0, AuthHeaders(c)));
      r.result == f.result && r.fs == f.fs
    ensures r.result.Success? ==> r.result.value != map[]
    ensures r.fs.fault == fs.fault && r.fetches <= 1
    ensures r.fetches == 0 ==> r.fs == fs
  {
    if c.credentials != map[] then Resolved(Success(c.credentials), fs, 0)
    else
      var f := FetchNewCredentials(fs, net.auth(0, AuthHeaders(c)));
      Resolved(f.result, f.fs, 1)
  }

  /** Lines 202-207, after a 401: re-read the file and trust it only when it
      is non-empty and differs from memory; otherwise fetch. A file that
      cannot be decoded raises out of the re-read. */
  function Reconcile(c: Client, fs: FileSystem, fetches: nat, net: Network): (r: Resolved)
    ensures var disk := LoadTokenFromDisk(fs);
      && (disk.Failure? ==> r == Resolved(Failure(UnicodeDecodeError), fs, fetches))
      && (disk.Success? && disk.value != map[] && disk.value != c.credentials ==>
            r == Resolved(Success(disk.value), fs, fetches))
      && (disk == Success(map[]) || disk == Success(c.credentials) ==>
            var f := FetchNewCredentials(fs, net.auth(fetches, AuthHeaders(c)));
            r == Resolved(f.result, f.fs, fetches + 1))
    ensures r.result.Success? ==> r.result.value != map[]
    ensures r.fs.fault == fs.fault && fetches <= r.fetches <= fetches + 1
    ensures r.fetches == fetches ==> r.fs == fs
  {
    match LoadTokenFromDisk(fs)
    case Failure(e) => Resolved(Failure(e), fs, fetches)
    case Success(disk) =>
      if disk != map[] && disk != c.credentials then Resolved(Success(disk), fs, fetches)
      else
        var f := FetchNewCredentials(fs, net.auth(fetches, AuthHeaders(c)));
        Resolved(f.result, f.fs, fetches + 1)
  }

  /** Lines 198, 213 and 217-218: a status the session's retry policy
      (lines 93-98) gave up on raises `RetryError` from the send itself;
      otherwise `raise_for_status()` may raise, and an accepted response
      whose body is not JSON makes `response.json()` raise. */
  function Finish(httpMethod: string, reply: ApiReply): (r: Result<string, Error>)
    requires reply.ApiResponse?
    ensures r.Success? <==> !RaisesForStatus(reply.status) && reply.isJson
    ensures r.Success? ==> r.value == reply.body
    ensures RetriedOut(httpMethod, reply.status) ==> r == Failure(RetryError(reply.status))
    ensures RaisesForStatus(reply.status) && !RetriedOut(httpMethod, reply.status) ==>
      r == Failure(HttpError(reply.status, reply.body))
    ensures !RaisesForStatus(reply.status) && !reply.isJson ==> r == Failure(JsonDecodeError(reply.body))
  {
    if RetriedOut(httpMethod, reply.status) then
      RetriedOutRaises(httpMethod, reply.status);
      Failure(RetryError(reply.status))
    else if RaisesForStatus(reply.status) then Failure(HttpError(reply.status, reply.body))
    else if !reply.isJson then Failure(JsonDecodeError(reply.body))
    else Success(reply.body)
  }

  /** The outcome of `_request`: the body or the error raised, the client
      and file system afterwards, the number of authentication fetches and
      the requests sent, in order. */
  datatype RequestOutcome = RequestOutcome(
    result: Result<string, Error>,
    client: Client,
    fs: FileSystem,
    fetches: nat,
    sent: seq<Sent>)

  /** A sent request is the caller's method, URL and headers with only the
      `Authorization` header set, under the client's timeout. */
  predicate SentAs(s: Sent, httpMethod: string, url: string, headers: Headers, timeout: int) {
    && s.httpMethod == httpMethod
    && s.url == url
    && s.timeout == timeout
    && AuthorizationHeader in s.headers
    && s.headers == headers[AuthorizationHeader := s.headers[AuthorizationHeader]]
  }

  /** The reply the network gave to the i-th request sent. */
  function ReplyTo(net: Network, sent: seq<Sent>, i: nat): ApiReply
    requires i < |sent|
  {
    net.api(i, sent[i].headers)
  }

  /** What the outcome's result says about the last reply: a body is
      returned only from an accepted JSON reply, a retry error only from a
      status the retry policy gave up on for that method, and an HTTP error
      carries the last reply's status and body. */
  predicate ResultFromLastReply(o: RequestOutcome, net: Network) {
    && (o.result.Success? ==>
          && |o.sent| > 0
          && var last := ReplyTo(net, o.sent, |o.sent| - 1);
          && last.ApiResponse? && !RaisesForStatus(last.status) && last.isJson && o.result.value == last.body)
    && (o.result.Failure? && o.result.error.RetryError? ==>
          && |o.sent| > 0
          && var last := ReplyTo(net, o.sent, |o.sent| - 1);
          && last.ApiResponse? && RetriedOut(o.sent[|o.sent| - 1].httpMethod, last.status)
          && o.result.error == RetryError(last.status))
    && (o.result.Failure? && o.result.error.HttpError? ==>
          && |o.sent| > 0
          && var last := ReplyTo(net, o.sent, |o.sent| - 1);
          && last.ApiResponse? && RaisesForStatus(last.status)
          && !RetriedOut(o.sent[|o.sent| - 1].httpMethod, last.status)
          && o.result.error == HttpError(last.status, last.body))
  }

  /** Conversely, a last reply that is not a 401 to the first send decides
      the result: an unreachable send raises `TransportError`, and a
      response is `Finish`ed. */
  predicate LastReplyDecides(o: RequestOutcome, net: Network) {
    |o.sent| > 0 ==>
      var last := ReplyTo(net, o.sent, |o.sent| - 1);
      |o.sent| == 2 || !(last.ApiResponse? && last.status == 401) ==>
        && (last.Unreachable? ==> o.result == Failure(TransportError))
        && (last.ApiResponse? ==> o.result == Finish(o.sent[|o.sent| - 1].httpMethod, last))
  }

  /** Lines 209-218: the resend with the reconciled credentials `c1`.
      A missing key raises before the second send. */
  function Resend(
    c1: Client, fs: FileSystem, fetches: nat, net: Network,
    first: Sent, key: string, headers: Headers): (o: RequestOutcome)
    requires net.api(0, first.headers).ApiResponse? && net.api(0, first.headers).status == 401
    requires SentAs(first, first.httpMethod, first.url, headers, c1.timeout)
    ensures o.client == c1 && o.fs == fs && o.fetches == fetches
    ensures key !in c1.credentials ==> o.result == Failure(KeyError(key)) && o.sent == [first]
    ensures key in c1.credentials ==>
      o.sent == [first, Sent(first.httpMethod, first.url, Authorize(headers, c1.credentials[key]), first.timeout)]
    ensures ResultFromLastReply(o, net)
    ensures |o.sent| == 2 && ReplyTo(net, o.sent, 1).ApiResponse? ==>
      o.result == Finish(first.httpMethod, ReplyTo(net, o.sent, 1))
    ensures |o.sent| == 2 && ReplyTo(net, o.sent, 1).Unreachable? ==> o.result == Failure(TransportError)
    ensures o.result.Failure? && o.result.error.KeyError? ==> o.result.error.key == key && key !in o.client.credentials
    ensures Dispatched(o, c1, net, first.httpMethod, first.url, headers, key)
  {
    if key !in c1.credentials then RequestOutcome(Failure(KeyError(key)), c1, fs, fetches, [first])
    else
      var second := Sent(first.httpMethod, first.url, Authorize(headers, c1.credentials[key]), first.timeout);
      var retry := net.api(1, second.headers);
      if retry.Unreachable? then RequestOutcome(Failure(TransportError), c1, fs, fetches, [first, second])
      else RequestOutcome(Finish(second.httpMethod, retry), c1, fs, fetches, [first, second])
  }

  /** What every stage after the lazy fetch guarantees of the rest of the
      request, starting from client `c0` and token key `key`: at most two
      sends, each the caller's request with only `Authorization` set, a
      second send only after a 401, a result read off the last reply, and
      only the credentials of the client changed, never to empty. */
  predicate Dispatched(
    o: RequestOutcome, c0: Client, net: Network,
    httpMethod: string, url: string, headers: Headers, key: string)
  {
    && |o.sent| <= 2
    && (forall i :: 0 <= i < |o.sent| ==> SentAs(o.sent[i], httpMethod, url, headers, c0.timeout))
    && (|o.sent| == 2 ==> ReplyTo(net, o.sent, 0).ApiResponse? && ReplyTo(net, o.sent, 0).status == 401)
    && ResultFromLastReply(o, net)
    && o.client == c0.(credentials := o.client.credentials)
    && (c0.credentials != map[] ==> o.client.credentials != map[])
    && (o.result.Success? ==> o.client.credentials != map[])
    && (o.result.Failure? && o.result.error.KeyError? ==>
          o.result.error.key == key && key !in o.client.credentials)
  }

  /** Lines 200-218 once the first send came back 401: reconcile, then resend. */
  function AfterUnauthorized(
    c0: Client, fs: FileSystem, fetches: nat, net: Network,
    first: Sent, key: string, headers: Headers): (o: RequestOutcome)
    requires net.api(0, first.headers).ApiResponse? && net.api(0, first.headers).status == 401
    requires SentAs(first, first.httpMethod, first.url, headers, c0.timeout)
    ensures var r1 := Reconcile(c0, fs, fetches, net);
      && o.fs == r1.fs && o.fetches == r1.fetches
      && (r1.result.Failure? ==> o.result == r1.result.PropagateFailure() && o.client == c0 && o.sent == [first])
      && (r1.result.Success? ==> o == Resend(c0.(credentials := r1.result.value), r1.fs, r1.fetches, net, first, key, headers))
    ensures o.fs.fault == fs.fault && fetches <= o.fetches <= fetches + 1
    ensures o.fetches == fetches ==> o.fs == fs
    ensures 1 <= |o.sent| && o.sent[0] == first
    ensures Dispatched(o, c0, net, first.httpMethod, first.url, headers, key)
  {
    var r1 := Reconcile(c0, fs, fetches, net);
    match r1.result
    case Failure(e) =>
      var o := RequestOutcome(Failure(e), c0, r1.fs, r1.fetches, [first]);
      assert ReplyTo(net, o.sent, 0) == net.api(0, first.headers);
      o
    case Success(creds1) => Resend(c0.(credentials := creds1), r1.fs, r1.fetches, net, first, key, headers)
  }

  /** Lines 191-200: look up the token, send once, and hand a 401 on to
      reconciliation. The concurrent writer acts while the request is in flight. */
  function SendFirst(
    c0: Client, fs: FileSystem, fetches: nat, net: Network,
    httpMethod: string, url: string, key: string, headers: Headers): (o: RequestOutcome)
    ensures key !in c0.credentials ==>
      o == RequestOutcome(Failure(KeyError(key)), c0, fs, fetches, [])
    ensures key in c0.credentials ==>
      && |o.sent| >= 1
      && o.sent[0] == Sent(httpMethod, url, Authorize(headers, c0.credentials[key]), c0.timeout)
    ensures var fs1 := ApplyRacer(fs, net.racer);
      key in c0.credentials && !(ReplyTo(net, o.sent, 0).ApiResponse? && ReplyTo(net, o.sent, 0).status == 401) ==>
        && o.client == c0 && o.fs == fs1 && o.fetches == fetches && |o.sent| == 1
        && (ReplyTo(net, o.sent, 0).Unreachable? ==> o.result == Failure(TransportError))
        && (ReplyTo(net, o.sent, 0).ApiResponse? ==> o.result == Finish(httpMethod, ReplyTo(net, o.sent, 0)))
    ensures var fs1 := ApplyRacer(fs, net.racer);
      key in c0.credentials && ReplyTo(net, o.sent, 0).ApiResponse? && ReplyTo(net, o.sent, 0).status == 401 ==>
        o == AfterUnauthorized(c0, fs1, fetches, net, o.sent[0], key, headers)
    ensures ResultFromLastReply(o, net)
    ensures o.fs.fault == fs.fault && fetches <= o.fetches <= fetches + 1
    ensures o.fetches == fetches ==> o.fs == fs || o.fs == ApplyRacer(fs, net.racer)
    ensures Dispatched(o, c0, net, httpMethod, url, headers, key)
  {
    if key !in c0.credentials then RequestOutcome(Failure(KeyError(key)), c0, fs, fetches, [])
    else
      var first := Sent(httpMethod, url, Authorize(headers, c0.credentials[key]), c0.timeout);
      var reply := net.api(0, first.headers);
      var fs1 := ApplyRacer(fs, net.racer);
      if reply.Unreachable? then RequestOutcome(Failure(TransportError), c0, fs1, fetches, [first])
      else if reply.status != 401 then RequestOutcome(Finish(httpMethod, reply), c0, fs1, fetches, [first])
      else AfterUnauthorized(c0, fs1, fetches, net, first, key, headers)
  }

  /** `_request`: lazy authentication, one send, and on a 401 one
      reconciliation and exactly one resend. */
  function Request(
    c: Client, fs: FileSystem, net: Network,
    httpMethod: string, endpoint: string, tokenType: TokenType, headers: Headers): (o: RequestOutcome)
    ensures |o.sent| <= 2 && o.fetches <= 2
    ensures o.client == c.(credentials := o.client.credentials)
    ensures c.credentials != map[] ==> o.client.credentials != map[]
    ensures o.fs.fault == fs.fault
    ensures forall i :: 0 <= i < |o.sent| ==> SentAs(o.sent[i], httpMethod, c.baseUrl + endpoint, headers, c.timeout)
    ensures |o.sent| == 2 ==>
      ReplyTo(net, o.sent, 0).ApiResponse? && ReplyTo(net, o.sent, 0).status == 401
    ensures ResultFromLastReply(o, net)
    ensures o.result.Success? ==> o.client.credentials != map[]
    ensures o.result.Failure? && o.result.error.KeyError? ==>
      o.result.error.key == tokenType.Key() && tokenType.Key() !in o.client.credentials
    ensures var r0 := EnsureCredentials(c, fs, net);
      && (r0.result.Failure? ==> o == RequestOutcome(r0.result.PropagateFailure(), c, r0.fs, r0.fetches, []))
      && (r0.result.Success? ==> (|o.sent| == 0 <==> tokenType.Key() !in r0.result.value))
  {
    var r0 := EnsureCredentials(c, fs, net);
    match r0.result
    case Failure(e) => RequestOutcome(Failure(e), c, r0.fs, r0.fetches, [])
    case Success(creds0) =>
      SendFirst(c.(credentials := creds0), r0.fs, r0.fetches, net,
                httpMethod, c.baseUrl + endpoint, tokenType.Key(), headers)
  }

  // ---------------------------------------------------------------------
  // Payload preparation
  // ---------------------------------------------------------------------

  newtype byte = x: int | 0 <= x < 256

  /** The argument of `prepare_data_for_generate_solutions`: a string, or
      any other Python value. */
  datatype JsonInput = Text(s: string) | NotText

  /** UTF-8 encoding, zlib compression at a level, and base64 encoding,
      as the library calls `prepare_data_for_generate_solutions` makes. */
  datatype Codec = Codec(
    utf8: string -> seq<byte>,
    compress: (seq<byte>, nat) -> seq<byte>,
    b64encode: seq<byte> -> seq<byte>)

  /** `prepare_data_for_generate_solutions`: a string is encoded, compressed
      at the default level and base64 encoded; anything else raises
      `InvalidDataException` with a fixed message and the default code. */
  function PrepareDataForGenerateSolutions(input: JsonInput, codec: Codec): (r: Result<seq<byte>, Error>)
    ensures r.Failure? <==> input.NotText?
    ensures r.Failure? ==>
      && r.error.InvalidData?
      && r.error.exception.cls == InvalidDataError
      && r.error.exception.message == NotTextMessage
      && r.error.exception.code == "INVALID_DATA"
      && Contains(ToString(r.error.exception), NotTextMessage)
    ensures r.Success? ==> r.value == codec.b64encode(codec.compress(codec.utf8(input.s), DefaultCompressionLevel))
  {
    match input
    case NotText =>
      var e := NewException(InvalidDataError, Some(NotTextMessage), None);
      MessageInString(e);
      Failure(InvalidData(e))
    case Text(s) =>
      Success(codec.b64encode(codec.compress(codec.utf8(s), DefaultCompressionLevel)))
  }
}
