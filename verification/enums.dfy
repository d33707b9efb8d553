/** The kinds of bearer token a request can be made with
    (src/tn_sdk/core/enums.py). */
module Enums {
  import opened Wrappers

  /** A closed enumeration: exactly the three members of `TokenType`. */
  datatype TokenType = Sandbox | Production | DataStream {

    /** The enum value, which is the token's key in the credential file. */
    function Key(): (k: string)
      ensures |k| > 0
      ensures this.Sandbox? <==> k == "sandbox_token"
      ensures this.Production? <==> k == "prod_token"
      ensures this.DataStream? <==> k == "data_stream_token"
    {
      match this
      case Sandbox => "sandbox_token"
      case Production => "prod_token"
      case DataStream => "data_stream_token"
    }
  }

  /** The token kind `_request` uses when the caller names none. */
  const DefaultTokenType: TokenType := Production

  /** Value lookup, `TokenType(k)`: the member whose value is `k`, if any. */
  function FromKey(k: string): (t: Option<TokenType>)
    ensures t.Some? ==> t.value.Key() == k
    ensures t.None? ==> forall u: TokenType :: u.Key() != k
  {
    if k == "sandbox_token" then Some(Sandbox)
    else if k == "prod_token" then Some(Production)
    else if k == "data_stream_token" then Some(DataStream)
    else None
  }

  /** Every member is found again from its value. */
  lemma KeyRoundTrip(t: TokenType)
    ensures FromKey(t.Key()) == Some(t)
  {
  }

  /** Distinct kinds index distinct credential-file keys. */
  lemma KeyInjective(t: TokenType, u: TokenType)
    ensures t.Key() == u.Key() <==> t == u
  {
    KeyRoundTrip(t);
    KeyRoundTrip(u);
  }

  /** The set of credential-file keys has one entry per kind. */
  lemma ThreeKinds()
    ensures (set t: TokenType | true :: t.Key()) == {"sandbox_token", "prod_token", "data_stream_token"}
  {
    var keys := set t: TokenType | true :: t.Key();
    assert Sandbox.Key() in keys && Production.Key() in keys && DataStream.Key() in keys;
  }
}
