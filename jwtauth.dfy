/** JWT bearer-token authentication of HTTP requests (jwtauth/jwt.go). The
    ES256 signature check, token parsing and signing are parameters: the
    cryptography and the jwt-go library are not part of this model. A request
    is its `jwtToken` cookie value and its Authorization header, each "" when
    absent. */
module JwtAuth {
  import opened Common

  /** The scheme in front of a bearer token. */
  const BearerPrefix := "Bearer "

  /** The only accepted signing method. */
  const ES256 := "ES256"

  /** jwt.ValidationErrorExpired: the claims bit for an expired token. */
  const ValidationErrorExpired: bv32 := 16

  /** How long a generated token stays valid. */
  const TokenLifetime: Duration := 24 * Hour

  /** Public and private keys, as bytes. */
  type KeyBytes = seq<bv8>

  /** signingMethod.Verify(headerAndPayload, signature, key) == nil. */
  type Verifier = (string, string, KeyBytes) -> bool

  /** A jwt.ValidationError: its message and its error bits. */
  datatype ValidationError = ValidationError(text: string, errors: bv32)

  /** What ParseUnverified gives: an error, or the signing algorithm named
      in the header, the outcome of Claims.Valid() at the current time and the
      subject claim, when it has one. */
  datatype Parsed =
    | ParseError(text: string)
    | Parsed(alg: string, claimsError: Option<ValidationError>, subject: Option<string>)

  /** parser.ParseUnverified(tokenString, jwt.MapClaims{}), with the claims
      checked against the current time. */
  type TokenParser = string -> Parsed

  /** The errors a request can be refused with. */
  datatype AuthError =
    | NoToken
    | Malformed
    | SignatureInvalid
    | ParseFailed(text: string)
    | BadSigningMethod(alg: string)
    | TokenExpired
    | ClaimsInvalid(claimsError: ValidationError)

  /** A validated token: the raw string, its algorithm, subject and signature. */
  datatype Token = Token(raw: string, alg: string, subject: Option<string>, signature: string)

  datatype Validated = Valid(token: Token) | Invalid(err: AuthError)

  /** err.Error() for each error. */
  function ErrorText(e: AuthError): string
  {
    match e
    case NoToken => "Authentication token is required"
    case Malformed => "token is malformed"
    case SignatureInvalid => "signature is not valid for any of our keys"
    case ParseFailed(text) => text
    case BadSigningMethod(alg) => "signing method " + alg + " is invalid"
    case TokenExpired => "JTW token expired"
    case ClaimsInvalid(ve) => ve.text
  }

  // ---------------------------------------------------------------------
  // GetBearerToken

  /** GetBearerToken: the text after a case-insensitive "Bearer " scheme, or
      "" when the header is empty, too short or carries another scheme. */
  function GetBearerToken(header: string): (r: string)
    ensures r != "" ==> |header| >= |BearerPrefix| && EqualFold(header[..|BearerPrefix|], BearerPrefix)
                        && header == header[..|BearerPrefix|] + r
  {
    if header == "" then ""
    else if |header| < |BearerPrefix| || !EqualFold(header[..|BearerPrefix|], BearerPrefix) then ""
    else header[|BearerPrefix|..]
  }

  /** A header that does not start with the scheme, in any case, gives no token. */
  lemma NoBearerScheme(header: string)
    requires |header| < |BearerPrefix| || !EqualFold(header[..|BearerPrefix|], BearerPrefix)
    ensures GetBearerToken(header) == ""
  {
  }

  /** The scheme in any letter case followed by a token gives that token back. */
  lemma BearerRoundTrip(scheme: string, token: string)
    requires |scheme| == |BearerPrefix| && EqualFold(scheme, BearerPrefix)
    ensures GetBearerToken(scheme + token) == token
  {
    assert (scheme + token)[..|BearerPrefix|] == scheme;
    assert (scheme + token)[|BearerPrefix|..] == token;
  }

  // ---------------------------------------------------------------------
  // validateWithKeystore

  /** Some trusted key verifies the signature. */
  predicate SignedByAny(headerAndPayload: string, signature: string, keys: seq<KeyBytes>, verify: Verifier)
  {
    exists i :: 0 <= i < |keys| && verify(headerAndPayload, signature, keys[i])
  }

  /** What validateWithKeystore decides: the token must have three
      dot-separated parts, carry a signature some trusted key verifies, parse,
      name ES256 and have valid claims; an expired token is reported as such. */
  function Validate(tokenString: string, keys: seq<KeyBytes>, verify: Verifier, parse: TokenParser): Validated
  {
    var parts := Split(tokenString, '.');
    if |parts| != 3 then Invalid(Malformed)
    else if !SignedByAny(Join(parts[..2], '.'), parts[2], keys, verify) then Invalid(SignatureInvalid)
    else match parse(tokenString)
      case ParseError(text) => Invalid(ParseFailed(text))
      case Parsed(alg, claimsError, subject) =>
        if alg != ES256 then Invalid(BadSigningMethod(alg))
        else if claimsError.Some? then
          if claimsError.value.errors & ValidationErrorExpired != 0 then Invalid(TokenExpired)
          else Invalid(ClaimsInvalid(claimsError.value))
        else Valid(Token(tokenString, alg, subject, parts[2]))
  }

  /** The signature check of validateWithKeystore: the trusted keys are tried
      in order and the search stops at the first one that verifies. */
  method CheckSignature(headerAndPayload: string, signature: string, keys: seq<KeyBytes>, verify: Verifier)
    returns (ok: bool)
    ensures ok <==> SignedByAny(headerAndPayload, signature, keys, verify)
  {
    var index := 0;
    while index < |keys|
      invariant 0 <= index <= |keys|
      invariant forall i :: 0 <= i < index ==> !verify(headerAndPayload, signature, keys[i])
    {
      if verify(headerAndPayload, signature, keys[index]) {
        // We found a key for which the signature is valid.
        return true;
      }
      index := index + 1;
    }
    return false;
  }

  /** validateWithKeystore. */
  method ValidateWithKeystore(tokenString: string, keys: seq<KeyBytes>, verify: Verifier, parse: TokenParser)
    returns (r: Validated)
    ensures r == Validate(tokenString, keys, verify, parse)
  {
    var parts := Split(tokenString, '.');
    if |parts| != 3 {
      return Invalid(Malformed);
    }
    var headerAndPayload := Join(parts[..2], '.');
    var signature := parts[2];
    var signed := CheckSignature(headerAndPayload, signature, keys, verify);
    if !signed {
      return Invalid(SignatureInvalid);
    }
    var parsed := parse(tokenString);
    if parsed.ParseError? {
      return Invalid(ParseFailed(parsed.text));
    }
    if parsed.alg != ES256 {
      return Invalid(BadSigningMethod(parsed.alg));
    }
    if parsed.claimsError.Some? {
      if parsed.claimsError.value.errors & ValidationErrorExpired != 0 {
        // The token is expired; get a new one.
        return Invalid(TokenExpired);
      }
      return Invalid(ClaimsInvalid(parsed.claimsError.value));
    }
    r := Valid(Token(tokenString, parsed.alg, parsed.subject, signature));
  }

  /** An accepted token has three parts, is ES256, carries valid claims and a
      signature that some trusted key verifies over its first two parts. */
  lemma AcceptedIsSound(tokenString: string, keys: seq<KeyBytes>, verify: Verifier, parse: TokenParser)
    requires Validate(tokenString, keys, verify, parse).Valid?
    ensures var parts := Split(tokenString, '.');
            var t := Validate(tokenString, keys, verify, parse).token;
            && |parts| == 3
            && SignedByAny(Join(parts[..2], '.'), parts[2], keys, verify)
            && parse(tokenString).Parsed? && parse(tokenString).alg == ES256
            && parse(tokenString).claimsError.None?
            && t == Token(tokenString, ES256, parse(tokenString).subject, parts[2])
  {
  }

  /** Without trusted keys every token is refused. */
  lemma NoKeysRefuseAll(tokenString: string, verify: Verifier, parse: TokenParser)
    ensures Validate(tokenString, [], verify, parse).Invalid?
  {
  }

  /** A token whose claims carry the expired bit, whatever else is wrong with
      them, is refused as expired once its signature and algorithm pass. */
  lemma ExpiredReported(tokenString: string, keys: seq<KeyBytes>, verify: Verifier, parse: TokenParser)
    requires |Split(tokenString, '.')| == 3
    requires SignedByAny(Join(Split(tokenString, '.')[..2], '.'), Split(tokenString, '.')[2], keys, verify)
    requires parse(tokenString).Parsed? && parse(tokenString).alg == ES256
    requires parse(tokenString).claimsError.Some?
    ensures Validate(tokenString, keys, verify, parse) == Invalid(TokenExpired)
            <==> parse(tokenString).claimsError.value.errors & ValidationErrorExpired != 0
  {
  }

  /** Split of a text without the separator is that text alone. */
  lemma {:induction false} SplitNoSeparator(s: string, sep: char)
    requires sep !in s
    ensures Split(s, sep) == [s]
    decreases |s|
  {
    if |s| > 0 {
      SplitNoSeparator(s[1..], sep);
      assert [s[0]] + s[1..] == s;
    }
  }

  /** Split stops the first piece at the first separator. */
  lemma {:induction false} SplitAtSeparator(a: string, sep: char, b: string)
    requires sep !in a
    ensures Split(a + [sep] + b, sep) == [a] + Split(b, sep)
    decreases |a|
  {
    if |a| == 0 {
      assert a + [sep] + b == [sep] + b;
      assert ([sep] + b)[1..] == b;
    } else {
      assert (a + [sep] + b)[1..] == a[1..] + [sep] + b;
      SplitAtSeparator(a[1..], sep, b);
      assert [a[0]] + a[1..] == a;
    }
  }

  /** A token assembled from three dot-free parts, signed over its first two
      by a trusted key, that parses as ES256 with valid claims is accepted. */
  lemma AcceptsWellFormed(header: string, payload: string, signature: string,
                          keys: seq<KeyBytes>, k: nat, verify: Verifier, parse: TokenParser)
    requires '.' !in header && '.' !in payload && '.' !in signature
    requires k < |keys| && verify(header + "." + payload, signature, keys[k])
    requires var t := header + "." + payload + "." + signature;
             parse(t).Parsed? && parse(t).alg == ES256 && parse(t).claimsError.None?
    ensures var t := header + "." + payload + "." + signature;
            Validate(t, keys, verify, parse) == Valid(Token(t, ES256, parse(t).subject, signature))
  {
    var t := header + "." + payload + "." + signature;
    SplitNoSeparator(signature, '.');
    SplitAtSeparator(payload, '.', signature);
    assert t == header + ['.'] + (payload + ['.'] + signature);
    SplitAtSeparator(header, '.', payload + ['.'] + signature);
    var parts := Split(t, '.');
    assert parts == [header, payload, signature];
    assert parts[..2] == [header, payload];
    assert Join(parts[..2], '.') == header + "." + payload;
  }

  // ---------------------------------------------------------------------
  // parseToken and Wrap

  /** The JWT handler; `friendly` says whether refusals carry the error. */
  datatype Jwt = Jwt(friendly: bool)

  /** NewJWT. */
  function NewJwt(friendly: bool): Jwt
  {
    Jwt(friendly)
  }

  /** The token parseToken validates: the cookie when it is set, otherwise
      the bearer token from the Authorization header. */
  function TokenString(cookie: string, header: string): (r: string)
  {
    if cookie != "" then cookie else GetBearerToken(header)
  }

  /** A set cookie wins over the header, whatever the header holds. */
  lemma CookieTakesPrecedence(cookie: string, header: string)
    requires cookie != ""
    ensures TokenString(cookie, header) == cookie
  {
  }

  /** There is no token exactly when there is no cookie and no bearer token. */
  lemma NoTokenIff(cookie: string, header: string)
    ensures TokenString(cookie, header) == "" <==> cookie == "" && GetBearerToken(header) == ""
  {
  }

  /** parseToken. */
  method ParseToken(cookie: string, header: string, keys: seq<KeyBytes>, verify: Verifier, parse: TokenParser)
    returns (r: Validated)
    ensures TokenString(cookie, header) == "" ==> r == Invalid(NoToken)
    ensures TokenString(cookie, header) != "" ==> r == Validate(TokenString(cookie, header), keys, verify, parse)
  {
    var tokenString := cookie;
    if tokenString == "" {
      tokenString := GetBearerToken(header);
    }
    if tokenString == "" {
      return Invalid(NoToken);
    }
    r := ValidateWithKeystore(tokenString, keys, verify, parse);
  }

  /** StatusTokenExpired (its number is defined outside jwt.go) and
      http.StatusUnauthorized (401). */
  datatype Status = StatusTokenExpired | StatusUnauthorized

  /** What the wrapped handler does: refuse with a status and message, or
      serve the request, setting x-user-id-from-token when the token has a
      subject. */
  datatype Response = Refused(status: Status, msg: string) | Served(userIdHeader: Option<string>)

  const AuthRequiredMsg := "JWT token authorization required"

  /** The answer of Wrap to the outcome of parseToken. */
  function Respond(j: Jwt, v: Validated): (r: Response)
    ensures r.Served? <==> v.Valid?
    ensures r.Refused? ==> (r.status == StatusTokenExpired <==> v.err == TokenExpired)
    ensures r.Refused? && r.status == StatusUnauthorized ==>
              && AuthRequiredMsg <= r.msg
              && (|r.msg| > |AuthRequiredMsg| <==> j.friendly)
    ensures r.Served? ==> r.userIdHeader == v.token.subject
  {
    match v
    case Invalid(TokenExpired) => Refused(StatusTokenExpired, "JWT token expired")
    case Invalid(err) =>
      Refused(StatusUnauthorized, if j.friendly then AuthRequiredMsg + ": " + ErrorText(err) else AuthRequiredMsg)
    case Valid(token) => Served(token.subject)
  }

  /** The friendly message is the plain one followed by the error text. */
  lemma FriendlyDetail(err: AuthError)
    requires err != TokenExpired
    ensures Respond(Jwt(true), Invalid(err)).msg
            == Respond(Jwt(false), Invalid(err)).msg + ": " + ErrorText(err)
  {
  }

  /** Wrap: authenticate the request, then answer it. */
  method Wrap(j: Jwt, cookie: string, header: string, keys: seq<KeyBytes>, verify: Verifier, parse: TokenParser)
    returns (resp: Response)
    ensures TokenString(cookie, header) == "" ==> resp == Respond(j, Invalid(NoToken))
    ensures TokenString(cookie, header) != "" ==>
              resp == Respond(j, Validate(TokenString(cookie, header), keys, verify, parse))
  {
    var v := ParseToken(cookie, header, keys, verify, parse);
    if v.Invalid? && v.err == TokenExpired {
      return Refused(StatusTokenExpired, "JWT token expired");
    }
    if v.Invalid? {
      var msg := AuthRequiredMsg;
      if j.friendly {
        msg := msg + ": " + ErrorText(v.err);
      }
      return Refused(StatusUnauthorized, msg);
    }
    resp := Served(v.token.subject);
  }

  // ---------------------------------------------------------------------
  // generateToken

  /** The standard claims of a generated token; times in Unix seconds. */
  datatype StandardClaims = StandardClaims(audience: string, expiresAt: int, subject: string, issuedAt: int)

  /** token.SignedString(privateKey) for an ES256 token with these claims. */
  type Signer = (StandardClaims, KeyBytes) -> Option<string>

  datatype GenerateError = NoPrivateKeyLoaded | SigningFailed

  datatype Generated = Generated(token: string) | GenerateFailed(err: GenerateError)

  /** t.Unix(): whole seconds, rounded towards minus infinity. */
  function Unix(t: Time): int
  {
    t / Second
  }

  /** The claims generateToken signs at time `now`. */
  function ClaimsAt(now: Time): (c: StandardClaims)
  {
    StandardClaims("12345", Unix(now + TokenLifetime), "user-ID", Unix(now))
  }

  /** A generated token expires exactly one day after it was issued. */
  lemma ExpiresOneDayLater(now: Time)
    ensures ClaimsAt(now).expiresAt == ClaimsAt(now).issuedAt + 24 * 60 * 60
  {
    var q := now / Second;
    var m := now % Second;
    assert now == q * Second + m && 0 <= m < Second;
    assert now + TokenLifetime == (q + 86400) * Second + m;
  }

  /** generateToken: refused without a private key; otherwise the claims at
      `now` signed with it. */
  function GenerateToken(privateKey: Option<KeyBytes>, now: Time, sign: Signer): (r: Generated)
    ensures privateKey.None? ==> r == GenerateFailed(NoPrivateKeyLoaded)
    ensures r.Generated? ==> privateKey.Some? && sign(ClaimsAt(now), privateKey.value) == Some(r.token)
    ensures privateKey.Some? ==>
              r == match sign(ClaimsAt(now), privateKey.value)
                   case Some(token) => Generated(token)
                   case None => GenerateFailed(SigningFailed)
  {
    if privateKey.None? then GenerateFailed(NoPrivateKeyLoaded)
    else match sign(ClaimsAt(now), privateKey.value)
      case None => GenerateFailed(SigningFailed)
      case Some(s) => Generated(s)
  }
}
