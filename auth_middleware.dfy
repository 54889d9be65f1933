/** The `auth` middleware of the backend: the token is read from the
    `Authorization` header, an optional `Bearer ` prefix is removed, the
    token is verified and its user looked up.  The JWT library and the user
    collection are outside the model and come in as functions. */
module AuthMiddleware {
  import opened Wrappers
  import opened Ids
  import opened Text

  const NoToken := "No token, authorization denied"
  const TokenNotValid := "Token is not valid"
  const BearerPrefix := "Bearer "

  /** The middleware either hands the request on with its user or answers
      401 with a message. */
  datatype AuthOutcome = Authenticated(user: User) | Denied(status: int, message: string)

  /** The token in a non-empty header: after a `Bearer ` prefix, with the
      whitespace that follows it dropped (`trimLeft`); otherwise the header
      as it is. */
  function ExtractToken(header: string): (token: string)
    ensures StartsWith(header, BearerPrefix) ==>
              |token| <= |header| - |BearerPrefix| && token == header[|header| - |token|..]
              && (forall i :: |BearerPrefix| <= i < |header| - |token| ==> IsWhitespace(header[i]))
              && (token == [] || !IsWhitespace(token[0]))
    ensures !StartsWith(header, BearerPrefix) ==> token == header
  {
    if StartsWith(header, BearerPrefix) then
      var rest := header[|BearerPrefix|..];
      var token := TrimStart(rest);
      token
    else header
  }

  /** The decision `auth` reaches: `verify` stands for `jwt.verify` followed by reading the
      payload's `id` (`None` when it throws), `findUser` for
      `User.findById` (`None` when there is no such user or the id cannot be
      cast). */
  function Decide(header: Option<string>, verify: string -> Option<UserId>,
                  findUser: UserId -> Option<User>): (outcome: AuthOutcome)
    ensures (header.None? || header.value == []) <==> outcome == Denied(401, NoToken)
    ensures outcome.Authenticated? <==>
              && header.Some? && header.value != []
              && verify(ExtractToken(header.value)).Some?
              && findUser(verify(ExtractToken(header.value)).value).Some?
    ensures outcome.Authenticated? ==>
              outcome.user == findUser(verify(ExtractToken(header.value)).value).value
    ensures outcome.Denied? ==> outcome.status == 401
  {
    if header.None? || header.value == [] then Denied(401, NoToken)
    else
      match verify(ExtractToken(header.value))
      case None => Denied(401, TokenNotValid)
      case Some(id) =>
        match findUser(id)
        case None => Denied(401, TokenNotValid)
        case Some(user) => Authenticated(user)
  }

  /** `auth` step by step: the header is read, refused when missing, stripped
      of its `Bearer ` prefix, verified, and its user looked up. */
  method Authenticate(header: Option<string>, verify: string -> Option<UserId>,
                      findUser: UserId -> Option<User>) returns (outcome: AuthOutcome)
    ensures outcome == Decide(header, verify, findUser)
  {
    if header.None? || header.value == [] {
      return Denied(401, NoToken);
    }
    var token := header.value;
    if StartsWith(token, BearerPrefix) {
      token := TrimStart(token[|BearerPrefix|..]);
    }
    var decoded := verify(token);
    if decoded.None? {
      return Denied(401, TokenNotValid);
    }
    var user := findUser(decoded.value);
    if user.None? {
      return Denied(401, TokenNotValid);
    }
    outcome := Authenticated(user.value);
  }

  /** Dropping whitespace in front of a token that does not itself start
      with whitespace gives the token back. */
  lemma {:induction false} TrimStartAfterWhitespace(ws: string, token: string)
    requires AllWhitespace(ws)
    requires token == [] || !IsWhitespace(token[0])
    ensures TrimStart(ws + token) == token
    decreases |ws|
  {
    if ws == [] {
      assert ws + token == token;
      TrimStartKeeps(token);
    } else {
      assert (ws + token)[1..] == ws[1..] + token;
      TrimStartAfterWhitespace(ws[1..], token);
    }
  }

  /** The header a client builds, `Bearer ` followed by any whitespace and
      the token, yields the token. */
  lemma {:induction false} BearerRoundTrip(ws: string, token: string)
    requires AllWhitespace(ws)
    requires token == [] || !IsWhitespace(token[0])
    ensures ExtractToken(BearerPrefix + ws + token) == token
  {
    var header := BearerPrefix + ws + token;
    assert StartsWith(header, BearerPrefix);
    assert header[|BearerPrefix|..] == ws + token;
    TrimStartAfterWhitespace(ws, token);
  }

  /** `Bearer ` with nothing after it leaves an empty token, which is then
      refused as not valid, not as missing. */
  lemma {:induction false} EmptyBearerIsNotValid(verify: string -> Option<UserId>, findUser: UserId -> Option<User>)
    requires verify([]) == None
    ensures ExtractToken(BearerPrefix) == []
    ensures Decide(Some(BearerPrefix), verify, findUser) == Denied(401, TokenNotValid)
  {
    assert BearerPrefix + [] + [] == BearerPrefix;
    BearerRoundTrip([], []);
  }
}
