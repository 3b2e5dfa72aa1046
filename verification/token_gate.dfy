/**
 * The token gate that guards the transcription routes: it takes the bearer
 * token from the Authorization header, verifies it, resolves the user it names,
 * and either lets the request through with that user or answers it.
 *
 * Token verification and the user lookup are oracles passed in as functions.
 */
module TokenGate {
  import opened Base
  import opened Text

  const AccessTokenRequired: string := "Access token required"
  const UserNotFound: string := "Invalid token - user not found"
  const InvalidToken: string := "Invalid token"
  const TokenExpired: string := "Token expired"
  const VerificationFailed: string := "Token verification failed"

  /** What verifying a token gives: its payload's user id (possibly absent), or a thrown error's name. */
  datatype Verified = Decoded(userId: Option<string>) | VerifyError(name: string)

  /** What looking up the payload's user id gives. */
  datatype Lookup<U> = Found(user: U) | NotFound | LookupError(name: string)

  /** The gate's decision: pass on with the resolved user, or answer with a status and message. */
  datatype Gate<U> = Next(user: U) | Deny(code: nat, error: string)

  /** The token: the second field of the header split on single spaces, when that field is non-empty. */
  function ExtractToken(header: Option<string>): (token: Option<string>)
    ensures token.Some? <==> header.Some? && |Split(header.value, ' ')| >= 2 && Split(header.value, ' ')[1] != ""
    ensures token.Some? ==> token.value == Split(header.value, ' ')[1]
    ensures token.Some? ==> token.value != "" && ' ' !in token.value
  {
    if header.None? then None
    else
      var fields := Split(header.value, ' ');
      if |fields| >= 2 && fields[1] != "" then Some(fields[1]) else None
  }

  /** `<scheme> <token>` yields the token, for a scheme and a token without spaces. */
  lemma BearerTokenExtracted(scheme: string, token: string)
    requires ' ' !in scheme && ' ' !in token && token != ""
    ensures ExtractToken(Some(scheme + " " + token)) == Some(token)
  {
    var fields := [scheme, token];
    SplitJoin(fields, ' ');
    assert Join(fields, ' ') == scheme + " " + token;
  }

  /** Fields after the token are ignored: `<scheme> <token> ...` yields the token. */
  lemma TokenIsSecondField(scheme: string, token: string, tail: string)
    requires ' ' !in scheme && ' ' !in token && token != ""
    requires tail == [] || tail[0] == ' '
    ensures ExtractToken(Some(scheme + " " + token + tail)) == Some(token)
  {
    var h := scheme + " " + token + tail;
    assert h[|scheme|] == ' ' && h[..|scheme|] == scheme;
    IndexOfFirst(h, ' ', |scheme|);
    var rest := h[|scheme| + 1..];
    assert rest == token + tail;
    assert Split(h, ' ') == [scheme] + Split(rest, ' ');
    if tail == [] {
      assert rest == token && ' ' !in rest;
    } else {
      assert rest[|token|] == ' ' && rest[..|token|] == token;
      IndexOfFirst(rest, ' ', |token|);
      assert Split(rest, ' ')[0] == token;
    }
  }

  /** A header whose second field is empty yields no token: two spaces after the scheme, or none at all. */
  lemma NoSecondFieldNoToken(scheme: string)
    requires ' ' !in scheme
    ensures ExtractToken(Some(scheme)) == None
    ensures ExtractToken(Some(scheme + "  ")) == None
  {
    SplitJoin([scheme], ' ');
    SplitJoin([scheme, "", ""], ' ');
    assert Join([scheme, "", ""][1..], ' ') == " ";
    assert Join([scheme, "", ""], ' ') == scheme + "  ";
  }

  /** The answer to an error thrown while verifying: by the error's name. */
  function Classify<U>(errorName: string): (g: Gate<U>)
    ensures g.Deny?
    ensures g.code == 401 <==> errorName == "JsonWebTokenError" || errorName == "TokenExpiredError"
    ensures g.code in {401, 500}
    ensures g.code == 401 ==> (g.error == InvalidToken <==> errorName == "JsonWebTokenError")
    ensures g.code == 500 ==> g.error == VerificationFailed
    ensures errorName == "TokenExpiredError" ==> g == Deny(401, TokenExpired)
  {
    if errorName == "JsonWebTokenError" then Deny(401, InvalidToken)
    else if errorName == "TokenExpiredError" then Deny(401, TokenExpired)
    else Deny(500, VerificationFailed)
  }

  /** The gate. */
  function Authenticate<U>(header: Option<string>, verify: string -> Verified,
                           findUser: Option<string> -> Lookup<U>): (g: Gate<U>)
    ensures ExtractToken(header).None? ==> g == Deny(401, AccessTokenRequired)
    ensures g.Next? <==>
              && ExtractToken(header).Some?
              && verify(ExtractToken(header).value).Decoded?
              && findUser(verify(ExtractToken(header).value).userId).Found?
    ensures g.Next? ==> g.user == findUser(verify(ExtractToken(header).value).userId).user
    ensures g.Deny? ==> g.code == 401 || g.code == 500
    ensures ExtractToken(header).Some? && verify(ExtractToken(header).value).VerifyError? ==>
              g == Classify(verify(ExtractToken(header).value).name)
    ensures ExtractToken(header).Some? && verify(ExtractToken(header).value).Decoded?
            && findUser(verify(ExtractToken(header).value).userId).NotFound? ==>
              g == Deny(401, UserNotFound)
    ensures ExtractToken(header).Some? && verify(ExtractToken(header).value).Decoded?
            && findUser(verify(ExtractToken(header).value).userId).LookupError? ==>
              g == Classify(findUser(verify(ExtractToken(header).value).userId).name)
  {
    match ExtractToken(header)
    case None => Deny(401, AccessTokenRequired)
    case Some(token) =>
      match verify(token)
      case VerifyError(name) => Classify(name)
      case Decoded(userId) =>
        match findUser(userId)
        case LookupError(name) => Classify(name)
        case NotFound => Deny(401, UserNotFound)
        case Found(user) => Next(user)
  }

  /** Without a token the gate answers before consulting either oracle. */
  lemma NoTokenIgnoresOracles<U>(header: Option<string>,
                                 verify1: string -> Verified, findUser1: Option<string> -> Lookup<U>,
                                 verify2: string -> Verified, findUser2: Option<string> -> Lookup<U>)
    requires ExtractToken(header).None?
    ensures Authenticate(header, verify1, findUser1) == Authenticate(header, verify2, findUser2)
  {
  }

  /** A request with `Bearer <token>` whose token verifies to a known user passes with that user. */
  lemma BearerOfKnownUserPasses<U>(token: string, userId: string, user: U,
                                   verify: string -> Verified, findUser: Option<string> -> Lookup<U>)
    requires ' ' !in token && token != ""
    requires verify(token) == Decoded(Some(userId)) && findUser(Some(userId)) == Found(user)
    ensures Authenticate(Some("Bearer " + token), verify, findUser) == Next(user)
  {
    assert ' ' !in "Bearer";
    BearerTokenExtracted("Bearer", token);
  }
}
