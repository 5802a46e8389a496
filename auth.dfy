/**
 * `authMiddleware`: a request passes only with a `Bearer ` authorization
 * header whose token the identity provider verifies; then the decoded token
 * is attached to the request and the next handler runs exactly once.
 */
module Auth {
  import opened Wrappers
  import opened JsStrings

  const BearerPrefix: string := "Bearer "
  const Unauthorized: int := 401

  /** The identity provider's decoded token, as far as the handlers read it. */
  datatype DecodedToken = DecodedToken(uid: string, email: string)

  /**
   * `header.split('Bearer ')[1].trim()` on a header that starts with the
   * prefix: the text after the prefix up to the next `Bearer ` (or the end),
   * trimmed.
   */
  function ExtractToken(header: string): (token: string)
    requires StartsWith(header, BearerPrefix)
    ensures IsTrimmed(token)
    ensures exists raw: string | |raw| <= |header| - |BearerPrefix| :: (
      && token == Trim(raw)
      && StartsWith(header[|BearerPrefix|..], raw)
      && !Contains(raw, BearerPrefix)
      && (raw == header[|BearerPrefix|..] || OccursAt(header[|BearerPrefix|..], BearerPrefix, |raw|)))
  {
    var rest := header[|BearerPrefix|..];
    assert OccursAt(header, BearerPrefix, 0);
    assert IndexOf(header, BearerPrefix) == Some(0);
    assert header == header[..0] + BearerPrefix + rest;
    assert Split(header, BearerPrefix)[1] == Split(rest, BearerPrefix)[0];
    SplitHead(rest, BearerPrefix);
    Trim(Split(header, BearerPrefix)[1])
  }

  /** A header the client builds as `Bearer <token>` yields that token back. */
  lemma BearerRoundTrip(token: string)
    requires IsTrimmed(token) && !Contains(token, BearerPrefix)
    ensures StartsWith(BearerPrefix + token, BearerPrefix)
    ensures ExtractToken(BearerPrefix + token) == token
  {
    var header := BearerPrefix + token;
    assert header[..|BearerPrefix|] == BearerPrefix;
    assert header[|BearerPrefix|..] == token;
    SplitHead(token, BearerPrefix);
  }

  /** The middleware's decision: the decoded token, or none for a 401. */
  function Authorize(header: Option<string>, verify: string -> Option<DecodedToken>): (r: Option<DecodedToken>)
    ensures r.Some? ==> header.Some? && StartsWith(header.value, BearerPrefix)
    ensures header.None? || !StartsWith(header.value, BearerPrefix) ==> r.None?
    ensures header.Some? && StartsWith(header.value, BearerPrefix) ==> r == verify(ExtractToken(header.value))
  {
    if header.None? || !StartsWith(header.value, BearerPrefix) then None
    else verify(ExtractToken(header.value))
  }

  /** One request passing through the middleware: what it attaches and what it sends. */
  class Exchange {
    var user: Option<DecodedToken>
    var nextCalls: nat
    /** The status of the response sent, 0 while none has been sent. */
    var status: int

    constructor ()
      ensures user == None && nextCalls == 0 && status == 0
    {
      user := None;
      nextCalls := 0;
      status := 0;
    }

    /**
     * `authMiddleware(req, res, next)`; `verify` stands for the identity
     * provider, answering `None` where `verifyIdToken` rejects.
     */
    method Authenticate(header: Option<string>, verify: string -> Option<DecodedToken>)
      modifies this
      ensures var decision := Authorize(header, verify);
        && (decision.None? ==> status == Unauthorized && user == old(user) && nextCalls == old(nextCalls))
        && (decision.Some? ==> user == decision && nextCalls == old(nextCalls) + 1 && status == old(status))
    {
      if header.None? || !StartsWith(header.value, BearerPrefix) {
        status := Unauthorized;
        return;
      }
      var idToken := ExtractToken(header.value);
      var decodedToken := verify(idToken);
      if decodedToken.None? {
        status := Unauthorized;
        return;
      }
      user := decodedToken;
      nextCalls := nextCalls + 1;
    }
  }
}
