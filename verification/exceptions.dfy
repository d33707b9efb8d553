/** The SDK's exception hierarchy (src/tn_sdk/exceptions/exceptions.py):
    a base `TnApiException` carrying a message and a machine-readable code,
    and `InvalidDataException`, which only changes the defaults. */
module Exceptions {
  import opened Wrappers

  /** Which class of the hierarchy an exception was raised as. */
  datatype ExceptionClass = TnApiError | InvalidDataError

  datatype TnApiException = TnApiException(cls: ExceptionClass, message: string, code: string)

  /** The class attribute `DEFAULT_MESSAGE`. */
  function DefaultMessage(cls: ExceptionClass): string {
    match cls
    case TnApiError => "Fallback error message for Trip Ninja SDK"
    case InvalidDataError => "Invalid or malformed data"
  }

  /** The class attribute `DEFAULT_CODE`. */
  function DefaultCode(cls: ExceptionClass): string {
    match cls
    case TnApiError => "SDK_ERROR"
    case InvalidDataError => "INVALID_DATA"
  }

  /** Constructs an exception of class `cls`; `None` stands for an argument
      the caller left out, which then takes the class's default. */
  function NewException(cls: ExceptionClass, message: Option<string>, code: Option<string>): (e: TnApiException)
    ensures e.cls == cls
    ensures message.Some? ==> e.message == message.value
    ensures code.Some? ==> e.code == code.value
    ensures message.None? ==> e.message == DefaultMessage(cls)
    ensures code.None? ==> e.code == DefaultCode(cls)
  {
    TnApiException(cls, message.GetOr(DefaultMessage(cls)), code.GetOr(DefaultCode(cls)))
  }

  /** Omitting both arguments yields each class's documented defaults. */
  lemma ExceptionDefaults()
    ensures NewException(TnApiError, None, None)
      == TnApiException(TnApiError, "Fallback error message for Trip Ninja SDK", "SDK_ERROR")
    ensures NewException(InvalidDataError, None, None)
      == TnApiException(InvalidDataError, "Invalid or malformed data", "INVALID_DATA")
  {
  }

  /** `str(e)`: the code in square brackets, a space, then the message. */
  function ToString(e: TnApiException): (s: string)
    ensures |s| == |e.code| + |e.message| + 3
    ensures s[0] == '[' && s[1..|e.code| + 1] == e.code
    ensures s[|e.code| + 1..|e.code| + 3] == "] "
    ensures s[|e.code| + 3..] == e.message
  {
    "[" + e.code + "] " + e.message
  }

  /** First position of `c` in `s`, if it occurs. */
  function IndexOf(s: string, c: char): (r: Option<nat>)
    ensures r.Some? ==> r.value < |s| && s[r.value] == c && c !in s[..r.value]
    ensures r.None? ==> c !in s
  {
    if |s| == 0 then None
    else if s[0] == c then Some(0)
    else
      match IndexOf(s[1..], c)
      case None => None
      case Some(i) =>
        assert s[..i + 1] == [s[0]] + s[1..][..i];
        Some(i + 1)
  }

  /** Reads a rendered exception back into its code and message: the code
      runs from after the opening bracket to the first closing bracket. */
  function ParseRendered(s: string): (r: Option<(string, string)>)
    ensures r.Some? ==> ']' !in r.value.0
  {
    if |s| == 0 || s[0] != '[' then None
    else
      match IndexOf(s[1..], ']')
      case None => None
      case Some(j) =>
        if j + 2 < |s| && s[j + 2] == ' ' then Some((s[1..j + 1], s[j + 3..]))
        else None
  }

  /** The rendering is decodable: an exception whose code holds no `]`
      is recovered exactly from its string form. */
  lemma RenderRoundTrip(e: TnApiException)
    requires ']' !in e.code
    ensures ParseRendered(ToString(e)) == Some((e.code, e.message))
  {
    var s := ToString(e);
    var rest := s[1..];
    assert rest == e.code + "] " + e.message;
    assert rest[|e.code|] == ']';
    assert rest[..|e.code|] == e.code;
    assert s[1..|e.code| + 1] == e.code;
  }

  /** Two exceptions with bracket-free codes render alike only when their
      codes and messages agree. */
  lemma RenderInjective(e: TnApiException, f: TnApiException)
    requires ']' !in e.code && ']' !in f.code
    requires ToString(e) == ToString(f)
    ensures e.code == f.code && e.message == f.message
  {
    RenderRoundTrip(e);
    RenderRoundTrip(f);
  }

  /** `s` occurs somewhere inside `t`. */
  predicate Contains(t: string, s: string) {
    exists i :: 0 <= i <= |t| - |s| && t[i..][..|s|] == s
  }

  /** The message is always visible in the string form, custom or default. */
  lemma MessageInString(e: TnApiException)
    ensures Contains(ToString(e), e.message)
  {
    var s := ToString(e);
    var i := |e.code| + 3;
    assert s[i..][..|e.message|] == e.message;
  }

  /** An `InvalidDataException` built with a custom message and code keeps
      both and shows the message in its string form. */
  lemma InvalidDataPassesThrough(message: string, code: string)
    ensures var e := NewException(InvalidDataError, Some(message), Some(code));
      e.message == message && e.code == code && Contains(ToString(e), message)
  {
    MessageInString(NewException(InvalidDataError, Some(message), Some(code)));
  }
}
