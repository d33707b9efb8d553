# Trip Ninja SDK credential lifecycle, in Dafny

This project models the credential lifecycle of the `TnApi` client of the
Trip Ninja Python SDK and proves properties of the model. It covers:

- construction checks;
- the credential file (load and atomic save);
- fetching credentials from the authentication endpoint;
- `_request`: lazy authentication, the `Authorization: Token <t>` header,
  and the disk-then-network recovery after a 401;
- `authenticate`;
- payload preparation for generate-solutions;
- base-URL validation;
- the exception classes;
- the `TokenType` enumeration.

The client is an immutable record (`TnApi.Client`). Its in-memory
credential map is `map<string, string>`, keyed by `TokenType` values. Every
operation is a pure function. It takes the file system and the network
explicitly and returns the result or the raised error (`Result`). It also
returns the new client, the new file system, and, for requests, how many
authentication fetches were made and which requests were sent.

The environment (`Environment`) is abstract:

- The credential file is `Missing`, `Corrupt` (unreadable or not JSON),
  `Undecodable` (bytes that are not UTF-8) or `Stored(map)`.
- Next to it sits the `.tmp` sibling a save writes first.
- A persistent `Fault` decides whether the write or the rename raises an OS
  error.
- The authentication endpoint and the request endpoint are oracles. They are
  indexed by call number and by the headers sent. Each reply is the outcome
  after the session's retry policy has run (lines 91-101 of `tn_api.py`): a
  GET or POST whose final status is 429, 500, 502, 503 or 504 means the
  retries ran out, and the send raises `RetryError` without a response
  (`Environment.RetriedOut`).
- A concurrent writer (`racer`) may replace the credential file while the
  first send is in flight. This models another process that shares the file.

Modules follow the source files:

| module | file |
|---|---|
| `Enums` | `core/enums.py` |
| `Exceptions` | `exceptions/exceptions.py` |
| `Validators` | `utils/validators.py` |
| `TnApi` | `core/tn_api.py` |

`TnApiProperties` holds lemmas about several steps and several calls.
`Environment` and `Wrappers` are support.

The model follows the code; in particular:

- A 401 answer to the resend surfaces as the `HTTPError` that
  `raise_for_status()` raises (`TnApi.Error.HttpError(401, body)`), not as
  an authentication failure (`TnApiProperties.SecondUnauthorizedSurfaces`).
- The fetch itself never assigns the in-memory credentials. `_request`
  assigns them, and `authenticate` does not assign them at all.
- A final status raises only when `raise_for_status()` raises, that is for
  400–599, not for every non-2xx status. A retried-out status raises
  `RetryError` from the send instead; for the authentication call this
  becomes "Authentication failed" with no body text, because the error
  carries no response.
- `_load_token_from_disk` catches only `JSONDecodeError` and `OSError`. A
  credential file that is not UTF-8 makes `read_text` raise
  `UnicodeDecodeError`, which escapes from the constructor and from the
  re-read after a 401.
- One request can make two authentication fetches, not at most one. An empty
  memory triggers a fetch. If the first send is then answered 401, the file
  equals memory and a second fetch follows
  (`TnApiProperties.TwoFetchesInOneRequest`).
- `TnAuthenticationFailedException` is imported by `tn_api.py` but not
  defined in `exceptions.py`. It is modelled as its own error variant,
  `AuthenticationFailed(message)`. The model assumes it is not a `requests`
  exception, so the "Invalid API Response" raised inside the `try` is not
  re-wrapped.

## Model

| member | source | states |
|---|---|---|
| Enums.TokenType.Key | src/tn_sdk/core/enums.py:11-13 | Sandbox's value is "sandbox_token", Production's "prod_token" and DataStream's "data_stream_token", each value belonging to that kind only |
| Enums.FromKey | src/tn_sdk/core/enums.py:4-13 | value lookup finds the kind whose credential-file key is the given string, and no kind for any other string |
| Enums.KeyRoundTrip | src/tn_sdk/core/enums.py:11-13 | every kind is found again from its key |
| Enums.KeyInjective | src/tn_sdk/core/enums.py:6-13 | two kinds share a credential-file key exactly when they are the same kind |
| Enums.ThreeKinds | src/tn_sdk/core/enums.py:11-13 | the keys of all kinds are exactly sandbox_token, prod_token and data_stream_token |
| Exceptions.NewException | src/tn_sdk/exceptions/exceptions.py:12-19 | a passed message and code are stored unchanged; an omitted one takes the class default |
| Exceptions.ExceptionDefaults | src/tn_sdk/exceptions/exceptions.py:9-29 | the base defaults are "Fallback error message for Trip Ninja SDK"/"SDK_ERROR", and the invalid-data defaults are "Invalid or malformed data"/"INVALID_DATA" |
| Exceptions.ToString | src/tn_sdk/exceptions/exceptions.py:21-22 | the string form is an opening bracket, the code, "] ", then the message, with the lengths adding up |
| Exceptions.RenderRoundTrip | src/tn_sdk/exceptions/exceptions.py:21-22 | the code and message are recovered from the string form when the code holds no closing bracket |
| Exceptions.RenderInjective | src/tn_sdk/exceptions/exceptions.py:21-22 | two exceptions with bracket-free codes render alike only when their codes and messages agree |
| Exceptions.MessageInString | src/tn_sdk/exceptions/exceptions.py:21-22 | the message occurs in the string form |
| Exceptions.InvalidDataPassesThrough | src/tn_sdk/exceptions/exceptions.py:25-32 | an invalid-data exception keeps a custom message and code, and its string form contains the message |
| Validators.IsValidBaseUrl | src/tn_sdk/utils/validators.py:4-30 | false on a parse failure, a non-http(s) scheme, an empty host, a path other than "" or "/", or a query or fragment; true exactly when the URL has the base-URL shape |
| Environment.RetriedOutRaises | src/tn_sdk/core/tn_api.py:93-98 | every status the retry policy gives up on is one raise_for_status would also reject |
| TnApi.StripTrailingSlashes | src/tn_sdk/core/tn_api.py:49 | the result is a prefix of the URL that does not end in "/", and everything removed is "/" |
| TnApiProperties.StripIdempotent | src/tn_sdk/core/tn_api.py:49 | stripping the stored base URL again changes nothing |
| TnApi.Init | src/tn_sdk/core/tn_api.py:31-77 | a missing id or secret gives ValueError; otherwise a missing directory gives FileNotFoundError; otherwise an invalid URL gives ValueError; otherwise an undecodable credential file gives UnicodeDecodeError; otherwise construction succeeds, storing the argument-or-environment id and secret, the stripped valid base URL, the resolved credential path, the timeout, and the credentials loaded from disk |
| TnApi.LoadTokenFromDisk | src/tn_sdk/core/tn_api.py:103-117 | raises UnicodeDecodeError exactly when the file is not UTF-8; otherwise the result is empty exactly when the file is missing, corrupt or holds an empty map, and a non-empty result is what the file holds |
| TnApi.SaveCredentialsToDisk | src/tn_sdk/core/tn_api.py:119-133 | the file ends up either unchanged or holding exactly the data, never anything else; without a fault, loading gives back the saved data (also for the empty map); with a fault, what loads is unchanged |
| TnApi.AuthHeaders | src/tn_sdk/core/tn_api.py:139-143 | the auth request carries exactly Content-Type "application/json", the client id and the client secret |
| TnApi.FetchNewCredentials | src/tn_sdk/core/tn_api.py:135-164 | succeeds exactly on a non-raising status with a body that parses to a non-empty object, which is returned and saved, so that without a fault loading gives it back; otherwise it raises authentication failed: plain when there is no response, the retries ran out, or a non-raising body is not JSON (a zero-length body included); with ": <body text>" appended for another raising status; "Invalid API Response" for a body that parses to an empty object; a failure leaves the file alone |
| TnApi.Authenticate | src/tn_sdk/core/tn_api.py:237-242 | the client, and so its in-memory credentials, are unchanged; it succeeds exactly when the fetch does, and then the file holds the fetched data unless a fault prevents it; a failure raises the fetch's own error and leaves the file alone |
| TnApi.Authorize | src/tn_sdk/core/tn_api.py:194-196 | the caller's headers are kept and only Authorization is set, to "Token " + token |
| TnApi.EnsureCredentials | src/tn_sdk/core/tn_api.py:188-189 | non-empty memory is used as is with no fetch; empty memory costs exactly one fetch, and a success is non-empty |
| TnApi.Reconcile | src/tn_sdk/core/tn_api.py:200-207 | after a 401, an undecodable file raises UnicodeDecodeError with no fetch; a non-empty file that differs from memory is used with no fetch; otherwise exactly one fetch decides |
| TnApi.Finish | src/tn_sdk/core/tn_api.py:198-218 | the body is returned exactly when raise_for_status accepts the status and the body is JSON; a status the retry policy gave up on for the method raises RetryError; any other raising status gives an HTTP error carrying status and body; an accepted body that is not JSON raises JSONDecodeError |
| TnApi.SendFirst | src/tn_sdk/core/tn_api.py:191-218 | a missing key raises KeyError before any send; otherwise the first send carries the token; an unreachable send raises TransportError, any other non-401 reply is finished as the final response, and only a 401 leads on to reconciliation |
| TnApi.AfterUnauthorized | src/tn_sdk/core/tn_api.py:200-218 | a failed reconciliation surfaces after one send with memory untouched; a successful one is followed by the resend |
| TnApi.Resend | src/tn_sdk/core/tn_api.py:209-218 | exactly one resend, with the reconciled token, whose reply decides the result (TransportError when unreachable, otherwise finished as the final response); a missing key raises before it |
| TnApi.Request | src/tn_sdk/core/tn_api.py:166-218 | a failed lazy fetch surfaces with nothing sent and the client unchanged; otherwise nothing is sent exactly when the token kind is missing; at most two sends and two fetches; a second send only after a 401; every send is the caller's request with only Authorization set, under the client's timeout; only the credentials change; non-empty memory stays non-empty; a returned body comes from an accepted JSON final reply, a RetryError or HTTP error from the final reply's status |
| TnApiProperties.LazyFetchBeforeFirstSend | src/tn_sdk/core/tn_api.py:188-198 | with empty memory, one fetch precedes the first send; its failure surfaces with nothing sent; its success supplies the first token and is kept |
| TnApiProperties.AfterUnauthorizedReplyDecides | src/tn_sdk/core/tn_api.py:200-218 | after a 401 to the first send, the resend's reply decides the result: TransportError when unreachable, otherwise the final response finished |
| TnApiProperties.SendFirstReplyDecides | src/tn_sdk/core/tn_api.py:191-218 | from the first send on, a last reply that is not a 401 to the first send decides the result |
| TnApiProperties.RequestLastReplyDecides | src/tn_sdk/core/tn_api.py:166-218 | for every request, a last reply that is not a 401 to the first send decides the result: TransportError when unreachable, otherwise the final response finished by raise_for_status, the retry policy and the JSON parse |
| TnApiProperties.CachedReplyDecidesResult | src/tn_sdk/core/tn_api.py:188-218 | with the token cached and a first reply other than 401, one send is made and that reply decides the result; an accepted JSON reply returns its body |
| TnApiProperties.CachedCredentialsNoFetch | src/tn_sdk/core/tn_api.py:188-198 | with credentials in memory, the first send carries the cached token, and without a 401 no fetch happens and the client is unchanged |
| TnApiProperties.MissingKeyRaisesBeforeSend | src/tn_sdk/core/tn_api.py:191-192 | a token kind absent from non-empty memory raises KeyError with no send, no fetch and no change |
| TnApiProperties.NewerDiskIsTrusted | src/tn_sdk/core/tn_api.py:200-215 | after a 401, a non-empty file that differs from memory replaces memory, costs no fetch, and its token is resent once |
| TnApiProperties.StaleDiskFetches | src/tn_sdk/core/tn_api.py:200-215 | after a 401, an empty file or one equal to memory costs exactly one fetch; its result is kept and resent, or its failure surfaces after one send |
| TnApiProperties.SecondUnauthorizedSurfaces | src/tn_sdk/core/tn_api.py:213-217 | a 401 to the resend raises HTTPError(401) and is not retried |
| TnApiProperties.ResendUnauthorizedSurfaces | src/tn_sdk/core/tn_api.py:209-217 | within the resend stage, a 401 to the second send raises HTTPError carrying that reply |
| TnApiProperties.UndecodableDiskRaisesAfterUnauthorized | src/tn_sdk/core/tn_api.py:200-202 | after a 401, an undecodable credential file makes the request raise UnicodeDecodeError after one send, with no fetch and memory unchanged |
| TnApiProperties.RetriedOutFirstSendRaises | src/tn_sdk/core/tn_api.py:93-98 | a GET or POST whose retries run out raises RetryError from the first send, with no reconciliation, fetch or resend |
| TnApiProperties.NoFetchNoWrite | src/tn_sdk/core/tn_api.py:166-218 | a request that makes no fetch leaves the credential file as it was, or as the concurrent writer left it |
| TnApiProperties.TwoFetchesInOneRequest | src/tn_sdk/core/tn_api.py:188-207 | a single request can fetch twice: one concrete setup (empty memory, a missing file, a 401 to the first send) fetches twice and still succeeds |
| TnApiProperties.SuccessfulRequestCachesCredentials | src/tn_sdk/core/tn_api.py:188-189 | after a successful request, the next request on the same client fetches nothing before sending |
| TnApiProperties.AuthenticateThenUnauthorizedUsesDisk | src/tn_sdk/core/tn_api.py:237-242 | authenticate leaves memory stale, but the next 401 finds the fresh file and uses it without fetching |
| TnApiProperties.OlderDiskTrustedAfterFailedSave | src/tn_sdk/core/tn_api.py:200-207 | after a failed save, the file's older token differs from memory and is trusted after the next 401, so it is resent |
| TnApiProperties.DefaultConstruction | src/tn_sdk/core/tn_api.py:31-77 | TnApi() with every default takes the identity from the environment, keeps "https://api.tripninja.io" as the base URL and 30 as the timeout, and fails only on an undecodable credential file |
| TnApiProperties.FreshClientFetchesOnce | src/tn_sdk/core/tn_api.py:166-189 | a default client built over a missing or corrupt file has empty memory; its first request with the default token kind fetches, and once it succeeds the next one fetches nothing before sending |
| TnApi.PrepareDataForGenerateSolutions | src/tn_sdk/core/tn_api.py:220-235 | a non-string raises InvalidDataException with message "Input must be a JSON-encoded string" and code "INVALID_DATA"; a string gives base64(compress(utf8(s), 6)) |

## Left out

- The `requests.Session`, `close`, `__enter__` and `__exit__` are left out.
  They are network plumbing and resource handling. The request endpoint is
  an oracle, and any transport failure other than a retry running out
  (a connection error, a timeout) is `TnApi.Error.TransportError`.
- The retry policy's individual attempts, back-off delays and
  `Retry-After` handling are left out. Only its final outcome is modelled:
  the oracle's reply is the last attempt, and `Environment.RetriedOut`
  decides whether that reply raises `RetryError`.
- URL parsing (`urlparse`), environment variables (`os.getenv`) and path
  resolution are left out. They are host facilities, passed in as the
  functions of `TnApi.Host`.
- The JSON text format of the credential file is left out, and its UTF-8
  decoding is modelled only as whether it succeeds (`Undecodable`). The file
  holds the map itself. A file holding JSON that is not an
  object of strings is not modelled.
- TnApi.FetchNewCredentials: a 2xx authentication body that is valid JSON
  but not an object of strings (a list, a number) is not modelled; the
  reply is either a parsed object or not JSON at all. A body that is not
  JSON, a zero-length one included, is modelled as requests 2.27 and later
  treat it: `response.json()` raises a `RequestException` without a
  response, which surfaces as plain "Authentication failed". With older
  versions of requests that error escaped uncaught; this is not modelled.
- Environment.AsciiUpper: only ASCII letters of the method name are
  upper-cased before the retry policy compares it with GET and POST.
  Python's full Unicode `str.upper()`, which maps a few non-ASCII letters
  (such as "ſ" to "S") into ASCII, is not modelled, so such a method name
  is never treated as retried out.
- TnApi.Finish: the JSON value of the final response is left out. The
  reply records only whether its body parses as JSON; a body that does not
  (such as the empty body of a 204) raises `JSONDecodeError`, and one that
  does is returned as its text rather than as the parsed value.
- zlib compression, base64 and UTF-8 encoding in payload preparation are
  left out. They are library calls, modelled as the functions of
  `TnApi.Codec`. Determinism follows because they are functions.
- TnApi.PrepareDataForGenerateSolutions: does not raise `UnicodeEncodeError`
  for a string holding a lone surrogate, because a Dafny string cannot hold
  one; every modelled string encodes.
- Extra request arguments other than `headers` (body, query parameters) are
  left out. They pass through unchanged.
- Writing `Authorization` into the caller's own headers dictionary is left
  out. It is a side effect on the caller's object. The model only records
  the headers sent.
- The URL of the authentication call is left out. `SDK_AUTH_ENDPOINT` is
  imported from `utils/constants.py` but not defined there.
- Other processes writing the credential file are modelled at one point
  only: between the first send and the 401 re-read. Other interleavings and
  OS-level atomicity guarantees are not modelled.
- The stale `tests/test_tn_api.py` is left out. It targets a constructor
  with arguments and fields the client no longer has.
- The `default` token kind of `_request` is `Enums.DefaultTokenType`, which
  is `Production`. `TnApi.Request` always receives the kind explicitly; the
  default is what the caller passes when it names none.
