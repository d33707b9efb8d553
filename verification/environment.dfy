/** The abstract world the client runs in: the credential file and its
    `.tmp` sibling on disk, and the two HTTP endpoints it talks to. */
module Environment {
  import opened Wrappers

  /** A credential set: token key to bearer token, as the JSON file holds it. */
  type Credentials = map<string, string>

  type Headers = map<string, string>

  /** A file as the client can read it: absent; unreadable (an OS error)
      or not valid JSON; bytes that are not valid UTF-8, on which reading
      raises `UnicodeDecodeError`; or holding a credential map. */
  datatype Disk = Missing | Corrupt | Undecodable | Stored(data: Credentials)

  /** Which file-system call raises an OS error, for example because the
      process lacks permission; the condition persists. */
  datatype Fault = NoFault | WriteDenied | ReplaceDenied

  /** The credential file (`target`) and the temporary sibling a save
      writes first (`temp`). */
  datatype FileSystem = FileSystem(target: Disk, temp: Disk, fault: Fault)

  datatype OsError = OsError

  /** `temp_path.write_text(...)`: writes the temporary sibling only. */
  function WriteTemp(fs: FileSystem, data: Credentials): (r: Result<FileSystem, OsError>)
    ensures r.Success? <==> fs.fault != WriteDenied
    ensures r.Success? ==> r.value == fs.(temp := Stored(data))
  {
    if fs.fault == WriteDenied then Failure(OsError)
    else Success(fs.(temp := Stored(data)))
  }

  /** `temp_path.replace(target)`: the temporary file takes the target's
      place in one step, so the target is never seen half written. */
  function ReplaceTarget(fs: FileSystem): (r: Result<FileSystem, OsError>)
    ensures r.Success? <==> fs.fault != ReplaceDenied
    ensures r.Success? ==> r.value.target == fs.temp && r.value.temp == Missing
    ensures r.Success? ==> r.value.fault == fs.fault
  {
    if fs.fault == ReplaceDenied then Failure(OsError)
    else Success(fs.(target := fs.temp, temp := Missing))
  }

  /** Another process sharing the credential file may replace it while a
      request is in flight; `None` means nobody did. */
  function ApplyRacer(fs: FileSystem, racer: Option<Disk>): (r: FileSystem)
    ensures racer.Some? ==> r.target == racer.value
    ensures racer.None? ==> r == fs
    ensures r.fault == fs.fault && r.temp == fs.temp
  {
    match racer
    case None => fs
    case Some(d) => fs.(target := d)
  }

  /** What the authentication endpoint does with one POST: no response at
      all (connection error, timeout); a status, the body text and the body
      parsed as a JSON object, which is empty for `{}`; or a status and a
      body text that is not JSON at all, a zero-length body included, on
      which `response.json()` raises. */
  datatype AuthReply =
    | NoResponse
    | AuthResponse(status: int, text: string, data: Credentials)
    | UnparsedResponse(status: int, text: string)

  /** What an authenticated endpoint does with one request: the send raised
      a transport error other than a retry running out (`Unreachable`), or
      a status, the body text and whether that text parses as JSON. */
  datatype ApiReply = Unreachable | ApiResponse(status: int, body: string, isJson: bool)

  /** The network as two oracles indexed by call number within one
      operation and by the headers sent, plus a concurrent writer of the
      credential file. */
  datatype Network = Network(
    auth: (nat, Headers) -> AuthReply,
    api: (nat, Headers) -> ApiReply,
    racer: Option<Disk>)

  /** `raise_for_status()` raises for client and server error statuses. */
  predicate RaisesForStatus(status: int) {
    400 <= status < 600
  }

  /** The statuses the session's retry adapter retries. */
  const RetryStatuses: set<int> := {429, 500, 502, 503, 504}

  /** Upper case of the ASCII letters only. The session compares the method
      name after Python's Unicode `str.upper()`, which also maps a few
      non-ASCII letters to ASCII ones; those are not modelled. */
  function AsciiUpper(s: string): (r: string)
    ensures |r| == |s|
    ensures forall i :: 0 <= i < |s| ==> r[i] == if 'a' <= s[i] <= 'z' then (s[i] as int - 32) as char else s[i]
  {
    if |s| == 0 then ""
    else [if 'a' <= s[0] <= 'z' then (s[0] as int - 32) as char else s[0]] + AsciiUpper(s[1..])
  }

  /** Each reply an oracle gives is the outcome after the adapter's retries
      (at most 3, for GET and POST only). A final status the adapter still
      retries means its retries ran out, and the session raises `RetryError`,
      which carries no response, instead of returning the reply. */
  predicate RetriedOut(httpMethod: string, status: int) {
    AsciiUpper(httpMethod) in {"GET", "POST"} && status in RetryStatuses
  }

  /** The adapter gives up only on error statuses, so a reply it gives up on
      would also have been raised by `raise_for_status()`. */
  lemma RetriedOutRaises(httpMethod: string, status: int)
    requires RetriedOut(httpMethod, status)
    ensures RaisesForStatus(status)
  {
  }
}
