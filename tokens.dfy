/**
 * cmd/api/tokens.go: `createAuthenticationTokenHandler`, which exchanges an
 * email address and password for a new authentication token.
 *
 * The handler's collaborators are parameters: the decoded request body (or the
 * message `readJSON` failed with), the checks `ValidateEmail` and
 * `ValidatePasswordPlaintext` fail, the store's user lookup by email,
 * `Password.Matches`, `Tokens.New`, and whether `writeJSON` manages to encode
 * the response.
 */
module Tokens {
  import opened Wrappers
  import opened Decimal
  import opened Data
  import V = Validator

  /** The JSON body the handler expects. */
  datatype Credentials = Credentials(email: string, password: string)

  /** `24 * time.Hour`, in seconds. */
  const TokenLifetime: int := 24 * 60 * 60
  /** `http.StatusCreated`. */
  const StatusCreated: int := 201

  /** The response the handler writes. */
  datatype TokenResponse =
    | BadRequest(message: string)
    | FailedValidation(errors: map<string, string>)
    | InvalidCredentials
    | ServerError
    | Created(status: int, envelope: map<string, Token>)

  /** The error map of the validator after both credential checks. */
  function CredentialErrors(c: Credentials, validateEmail: string -> seq<V.FieldError>,
                            validatePassword: string -> seq<V.FieldError>): (errors: map<string, string>)
    ensures errors == map[] <==> validateEmail(c.email) == [] && validatePassword(c.password) == []
  {
    V.AddedAllEmpty(validateEmail(c.email));
    V.AddedAll(V.AddedAll(map[], validateEmail(c.email)), validatePassword(c.password))
  }

  /** `createAuthenticationTokenHandler`: decode, validate, look the user up, compare
      the password, mint a 24-hour authentication token and answer 201 with it. An
      unknown email and a wrong password get the same answer. */
  function CreateAuthenticationToken(
    body: Result<Credentials, string>,
    validateEmail: string -> seq<V.FieldError>,
    validatePassword: string -> seq<V.FieldError>,
    getByEmail: string -> Result<User, StoreError>,
    matches: (User, string) -> Result<bool, StoreError>,
    newToken: (Int64, int, string) -> Result<Token, StoreError>,
    encodes: map<string, Token> -> bool
  ): (resp: TokenResponse)
    ensures resp.BadRequest? <==> body.Failure?
    ensures body.Failure? ==> resp == BadRequest(body.error)
    ensures resp.FailedValidation? <==>
      body.Success? && CredentialErrors(body.value, validateEmail, validatePassword) != map[]
    ensures resp.FailedValidation? ==>
      resp == FailedValidation(CredentialErrors(body.value, validateEmail, validatePassword))
    ensures resp == InvalidCredentials <==>
      && body.Success? && CredentialErrors(body.value, validateEmail, validatePassword) == map[]
      && var user := getByEmail(body.value.email);
         user == Failure(RecordNotFound)
         || (user.Success? && matches(user.value, body.value.password) == Success(false))
    ensures resp.Created? <==>
      && body.Success? && CredentialErrors(body.value, validateEmail, validatePassword) == map[]
      && var user := getByEmail(body.value.email);
         && user.Success?
         && matches(user.value, body.value.password) == Success(true)
         && var minted := newToken(user.value.id, TokenLifetime, ScopeAuthentication);
            minted.Success? && encodes(map["authentication_token" := minted.value])
    ensures resp.Created? ==>
      var minted := newToken(getByEmail(body.value.email).value.id, TokenLifetime, ScopeAuthentication);
      resp == Created(StatusCreated, map["authentication_token" := minted.value])
    ensures resp == ServerError <==>
      && body.Success? && CredentialErrors(body.value, validateEmail, validatePassword) == map[]
      && var user := getByEmail(body.value.email);
         user == Failure(Fault)
         || (user.Success? && (matches(user.value, body.value.password).Failure?
                               || (matches(user.value, body.value.password) == Success(true)
                                   && (newToken(user.value.id, TokenLifetime, ScopeAuthentication).Failure?
                                       || !encodes(map["authentication_token" := newToken(user.value.id, TokenLifetime, ScopeAuthentication).value])))))
  {
    match body
    case Failure(message) => BadRequest(message)
    case Success(input) =>
      var errors := CredentialErrors(input, validateEmail, validatePassword);
      if errors != map[] then FailedValidation(errors)
      else match getByEmail(input.email)
        case Failure(RecordNotFound) => InvalidCredentials
        case Failure(Fault) => ServerError
        case Success(user) =>
          match matches(user, input.password)
          case Failure(_) => ServerError
          case Success(false) => InvalidCredentials
          case Success(true) =>
            match newToken(user.id, TokenLifetime, ScopeAuthentication)
            case Failure(_) => ServerError
            case Success(token) =>
              var envelope := map["authentication_token" := token];
              if !encodes(envelope) then ServerError else Created(StatusCreated, envelope)
  }

  /** Failed validation answers before the store is asked: the response does not
      depend on what the lookup would have returned. */
  lemma ValidationFailureSkipsLookup(
    body: Result<Credentials, string>,
    validateEmail: string -> seq<V.FieldError>, validatePassword: string -> seq<V.FieldError>,
    getByEmail1: string -> Result<User, StoreError>, getByEmail2: string -> Result<User, StoreError>,
    matches: (User, string) -> Result<bool, StoreError>,
    newToken: (Int64, int, string) -> Result<Token, StoreError>,
    encodes: map<string, Token> -> bool)
    requires body.Failure? || CredentialErrors(body.value, validateEmail, validatePassword) != map[]
    ensures CreateAuthenticationToken(body, validateEmail, validatePassword, getByEmail1, matches, newToken, encodes)
         == CreateAuthenticationToken(body, validateEmail, validatePassword, getByEmail2, matches, newToken, encodes)
  {
  }

  /** No token is minted unless the password matched: with any other comparison
      result the response does not depend on `Tokens.New`. */
  lemma NoMintWithoutMatch(
    body: Result<Credentials, string>,
    validateEmail: string -> seq<V.FieldError>, validatePassword: string -> seq<V.FieldError>,
    getByEmail: string -> Result<User, StoreError>,
    matches: (User, string) -> Result<bool, StoreError>,
    newToken1: (Int64, int, string) -> Result<Token, StoreError>,
    newToken2: (Int64, int, string) -> Result<Token, StoreError>,
    encodes: map<string, Token> -> bool)
    requires body.Success? && getByEmail(body.value.email).Success?
    requires matches(getByEmail(body.value.email).value, body.value.password) != Success(true)
    ensures CreateAuthenticationToken(body, validateEmail, validatePassword, getByEmail, matches, newToken1, encodes)
         == CreateAuthenticationToken(body, validateEmail, validatePassword, getByEmail, matches, newToken2, encodes)
  {
  }
}
