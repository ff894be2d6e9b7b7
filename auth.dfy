/** Bearer-token extraction and request authentication (lib/auth.ts).
    Signature and expiry checking (`jwt.verify`) is not modelled: it is the
    parameter `verify`, a partial function that yields no payload whenever
    verification fails (`verifyToken` catches and returns null). */
module Auth {
  import opened Common
  import Text

  /** The identity a signed token carries. */
  datatype TokenPayload = TokenPayload(userId: string, email: string, username: string)

  /** The token verifier: `Some(payload)` for a token that checks,
      `None` on any failure. */
  type Verifier = string -> Option<TokenPayload>

  const BearerPrefix: string := "Bearer "

  /** `getTokenFromRequest`: the rest of the `authorization` header after a
      leading, case-sensitive `"Bearer "`; null for a missing header or any
      other prefix. */
  function GetTokenFromRequest(authorization: Option<string>): (r: Option<string>)
    ensures r.Some? <==> authorization.Some? && Text.StartsWith(authorization.value, BearerPrefix)
    ensures r.Some? ==> authorization.value == BearerPrefix + r.value
  {
    if Present(authorization) && Text.StartsWith(authorization.value, BearerPrefix) then
      assert authorization.value == authorization.value[..7] + authorization.value[7..];
      Some(authorization.value[7..])
    else
      None
  }

  /** `getUserFromRequest`: an empty or missing token is rejected without
      consulting the verifier; otherwise the verifier decides. */
  function GetUserFromRequest(authorization: Option<string>, verify: Verifier): Option<TokenPayload>
  {
    var token := GetTokenFromRequest(authorization);
    if !Present(token) then None else verify(token.value)
  }

  /** Prefixing any token with `"Bearer "` gives back that token. */
  lemma BearerRoundTrip(t: string)
    ensures GetTokenFromRequest(Some(BearerPrefix + t)) == Some(t)
  {
    assert (BearerPrefix + t)[..|BearerPrefix|] == BearerPrefix;
    assert (BearerPrefix + t)[7..] == t;
  }

  /** The prefix is matched exactly: other capitalisations or spacing give no token. */
  lemma PrefixIsExact()
    ensures GetTokenFromRequest(None) == None
    ensures GetTokenFromRequest(Some("bearer abc")) == None
    ensures GetTokenFromRequest(Some("Bearer")) == None
    ensures GetTokenFromRequest(Some("Token abc")) == None
  {
    assert "bearer abc"[..7] != BearerPrefix by { assert "bearer abc"[0] != BearerPrefix[0]; }
    assert "Token abc"[..7] != BearerPrefix by { assert "Token abc"[0] != BearerPrefix[0]; }
  }

  /** Without a non-empty token the answer is null whatever the verifier
      would say, so the verifier is not consulted; this covers the header
      `"Bearer "` with nothing after it. */
  lemma NoTokenNoUser(authorization: Option<string>, v1: Verifier, v2: Verifier)
    requires !Present(GetTokenFromRequest(authorization))
    ensures GetUserFromRequest(authorization, v1) == None
    ensures GetUserFromRequest(authorization, v1) == GetUserFromRequest(authorization, v2)
  {
  }

  /** With a non-empty bearer token the verifier's verdict is the answer. */
  lemma VerifierDecides(t: string, verify: Verifier)
    requires t != ""
    ensures GetUserFromRequest(Some(BearerPrefix + t), verify) == verify(t)
  {
    BearerRoundTrip(t);
  }
}
