/** Base-URL validation (src/tn_sdk/utils/validators.py). URL parsing itself
    is not modelled: the predicate receives the components `urlparse`
    produced, or `None` when parsing raised. */
module Validators {
  import opened Wrappers

  datatype ParsedUrl = ParsedUrl(scheme: string, netloc: string, path: string, query: string, fragment: string)

  /** `is_valid_base_url`: the checks in the order `is_valid_base_url` makes them,
      each rejecting on its own. */
  function IsValidBaseUrl(parsed: Option<ParsedUrl>): (ok: bool)
    ensures parsed.None? ==> !ok
    ensures parsed.Some? && parsed.value.scheme != "http" && parsed.value.scheme != "https" ==> !ok
    ensures parsed.Some? && parsed.value.netloc == "" ==> !ok
    ensures parsed.Some? && parsed.value.path != "" && parsed.value.path != "/" ==> !ok
    ensures parsed.Some? && (parsed.value.query != "" || parsed.value.fragment != "") ==> !ok
    ensures ok <==> parsed.Some? && IsBaseUrl(parsed.value)
  {
    match parsed
    case None => false
    case Some(p) =>
      if p.scheme != "http" && p.scheme != "https" then false
      else if p.netloc == "" then false
      else if p.path != "" && p.path != "/" then false
      else if p.query != "" || p.fragment != "" then false
      else true
  }

  /** The shape of an acceptable base URL, stated as one conjunction:
      an http(s) scheme, a host, an empty or root path, and nothing after it. */
  predicate IsBaseUrl(p: ParsedUrl) {
    && p.scheme in {"http", "https"}
    && |p.netloc| > 0
    && p.path in {"", "/"}
    && |p.query| == 0
    && |p.fragment| == 0
  }
}
