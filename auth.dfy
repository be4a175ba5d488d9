/** `authenticateToken`: the API-token middleware. The expected token is the
    `API_TOKEN` environment variable; a request carries its token either as
    `Authorization: Bearer <token>` or in the `X-API-Token` header. Headers and
    the variable are None when absent. */
module Auth {
  import opened Common
  import opened StrUtil

  const BearerPrefix: string := "Bearer "

  /** What the middleware does: pass the request on, or answer it. */
  datatype Decision =
    | Next
    | Reject(status: nat, error: string, message: string)

  const NotConfigured: Decision := Reject(500, "Server configuration error", "API token not configured")
  const TokenRequired: Decision := Reject(401, "Unauthorized",
    "API token is required. Include it in Authorization header (Bearer <token>) or X-API-Token header")
  const TokenInvalid: Decision := Reject(401, "Unauthorized", "Invalid API token")

  /** The token the request presents (None for the initial `null`). A
      `Bearer ` header (case-sensitive, with the space) wins, even when
      nothing follows the prefix; otherwise a non-empty `X-API-Token`. */
  function ExtractToken(authHeader: Option<string>, apiToken: Option<string>): (token: Option<string>)
    ensures authHeader.Some? && StartsWith(authHeader.value, BearerPrefix) ==>
      token == Some(authHeader.value[|BearerPrefix|..]) && authHeader.value == BearerPrefix + token.value
    ensures !(authHeader.Some? && StartsWith(authHeader.value, BearerPrefix)) ==>
      token == if apiToken.Some? && apiToken.value != "" then apiToken else None
  {
    if authHeader.Some? && authHeader.value != "" && StartsWith(authHeader.value, BearerPrefix) then
      var header := authHeader.value;
      assert header == header[..7] + header[7..];
      Some(header[7..])
    else if apiToken.Some? && apiToken.value != "" then apiToken
    else None
  }

  /** The middleware's decision. `next()` is called exactly when a token is
      configured and the presented token equals it. */
  function Authenticate(expected: Option<string>, authHeader: Option<string>, apiToken: Option<string>): (d: Decision)
    ensures d == Next <==> expected.Some? && expected.value != "" && ExtractToken(authHeader, apiToken) == expected
    ensures expected.None? || expected.value == "" ==> d == NotConfigured
    ensures expected.Some? && expected.value != "" ==>
      var token := ExtractToken(authHeader, apiToken);
      && (token.None? || token.value == "" ==> d == TokenRequired)
      && (token.Some? && token.value != "" && token != expected ==> d == TokenInvalid)
  {
    if expected.None? || expected.value == "" then NotConfigured
    else
      var token := ExtractToken(authHeader, apiToken);
      if token.None? || token.value == "" then TokenRequired
      else if token.value != expected.value then TokenInvalid
      else Next
  }

  /** With no token configured the headers are never looked at. */
  lemma ConfigurationCheckedFirst(authHeader: Option<string>, apiToken: Option<string>)
    ensures Authenticate(None, authHeader, apiToken) == NotConfigured
    ensures Authenticate(Some(""), authHeader, apiToken) == NotConfigured
  {
  }

  /** A bare `Bearer ` header hides a correct `X-API-Token`: the request is
      refused as carrying no token. */
  lemma BearerPrecedence(expected: string)
    requires expected != ""
    ensures Authenticate(Some(expected), Some(BearerPrefix), Some(expected)) == TokenRequired
  {
    assert StartsWith(BearerPrefix, BearerPrefix);
  }

  /** The prefix is case-sensitive: `bearer <token>` is ignored and the
      `X-API-Token` header decides. */
  lemma LowercaseBearerFallsBack(expected: string, token: string)
    requires expected != ""
    ensures Authenticate(Some(expected), Some("bearer " + token), Some(expected)) == Next
  {
    var header := "bearer " + token;
    assert header[0] != BearerPrefix[0];
  }

  /** Sending the expected token either way is accepted. */
  lemma EitherHeaderAccepted(expected: string)
    requires expected != ""
    ensures Authenticate(Some(expected), Some(BearerPrefix + expected), None) == Next
    ensures Authenticate(Some(expected), None, Some(expected)) == Next
  {
    assert StartsWith(BearerPrefix + expected, BearerPrefix) by {
      assert (BearerPrefix + expected)[..|BearerPrefix|] == BearerPrefix;
    }
    assert (BearerPrefix + expected)[|BearerPrefix|..] == expected;
  }
}
