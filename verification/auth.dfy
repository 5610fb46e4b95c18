/** The bearer-token dependency of the transcription service
    (backend/audio_transcription/auth.py). */
module Auth {
  import opened Wrappers
  import opened Http
  import Jwt
  import PyInt
  import Security
  import AuthService

  datatype AuthConfig = AuthConfig(secretKey: string, algorithm: string)

  const ConfigErrorPrefix: string := "Error: Missing required JWT environment variable: "

  /** Loading the configuration: a missing secret or algorithm (looked up in
      that order) stops the process with `SystemExit`. */
  function LoadConfig(env: map<string, string>): (r: Result<AuthConfig, SystemExit>)
    ensures r.Success? <==> "JWT_SECRET_KEY" in env && "ALGORITHM" in env
    ensures r.Success? ==> r.value == AuthConfig(env["JWT_SECRET_KEY"], env["ALGORITHM"])
    ensures "JWT_SECRET_KEY" !in env ==> r.error == SystemExit(ConfigErrorPrefix + "'JWT_SECRET_KEY'")
    ensures "JWT_SECRET_KEY" in env && "ALGORITHM" !in env ==> r.error == SystemExit(ConfigErrorPrefix + "'ALGORITHM'")
  {
    if "JWT_SECRET_KEY" !in env then Failure(SystemExit(ConfigErrorPrefix + Security.Quoted("JWT_SECRET_KEY")))
    else if "ALGORITHM" !in env then Failure(SystemExit(ConfigErrorPrefix + Security.Quoted("ALGORITHM")))
    else Success(AuthConfig(env["JWT_SECRET_KEY"], env["ALGORITHM"]))
  }

  /** What `get_current_user` hands to the protected handler. */
  datatype CurrentUser = CurrentUser(userId: Jwt.ClaimValue, username: Jwt.ClaimValue)

  const CredentialsError: HttpError := HttpError(401, "Could not validate credentials", BearerChallenge)
  const ExpiredError: HttpError := HttpError(401, "Token has expired", BearerChallenge)

  /** `get_current_user(token)`: decode with the configured secret, accepting
      only the configured algorithm; an expired signature is reported apart
      from every other failure. */
  function GetCurrentUser(token: string, cfg: AuthConfig, decode: Jwt.Decoder): (r: Result<CurrentUser, HttpError>)
    ensures r.Success? <==>
      && decode(token, cfg.secretKey, [cfg.algorithm]).Decoded?
      && Jwt.Present(decode(token, cfg.secretKey, [cfg.algorithm]).payload, "sub")
      && Jwt.Present(decode(token, cfg.secretKey, [cfg.algorithm]).payload, "username")
    ensures r.Success? ==>
      var p := decode(token, cfg.secretKey, [cfg.algorithm]).payload;
      r.value == CurrentUser(p["sub"], p["username"])
    ensures r.Failure? ==> r.error.status == 401 && r.error.headers == BearerChallenge
    ensures r.Failure? ==>
      (r.error == ExpiredError <==> decode(token, cfg.secretKey, [cfg.algorithm]).ExpiredSignature?)
    ensures r.Failure? && !decode(token, cfg.secretKey, [cfg.algorithm]).ExpiredSignature? ==>
      r.error == CredentialsError
  {
    match decode(token, cfg.secretKey, [cfg.algorithm])
    case Decoded(payload) =>
      var userId := if "sub" in payload then payload["sub"] else Jwt.Null;
      var username := if "username" in payload then payload["username"] else Jwt.Null;
      if userId == Jwt.Null || username == Jwt.Null then Failure(CredentialsError)
      else Success(CurrentUser(userId, username))
    case ExpiredSignature => Failure(ExpiredError)
    case InvalidToken => Failure(CredentialsError)
  }

  /** The verdict depends on the decoder only through the one call with the
      configured secret and the single configured algorithm. */
  lemma OnlyConfiguredAlgorithm(token: string, cfg: AuthConfig, d1: Jwt.Decoder, d2: Jwt.Decoder)
    requires d1(token, cfg.secretKey, [cfg.algorithm]) == d2(token, cfg.secretKey, [cfg.algorithm])
    ensures GetCurrentUser(token, cfg, d1) == GetCurrentUser(token, cfg, d2)
  {
  }

  /** A token issued by `/login` and decoded with the same secret and
      algorithm (where the library gives the signed claims back unchanged)
      authenticates as the user's id, as a string, and username. */
  lemma IssuedTokenAuthenticates(
    u: AuthService.User, scfg: Security.SecurityConfig, now: int,
    encode: Jwt.Encoder, decode: Jwt.Decoder)
    requires
      var claims := Security.AccessClaims(AuthService.LoginClaims(u), now, scfg.expireMinutes);
      var token := encode(claims, scfg.secretKey, scfg.algorithm);
      decode(token, scfg.secretKey, [scfg.algorithm]) == Jwt.Decoded(claims)
    ensures
      var claims := Security.AccessClaims(AuthService.LoginClaims(u), now, scfg.expireMinutes);
      var token := encode(claims, scfg.secretKey, scfg.algorithm);
      GetCurrentUser(token, AuthConfig(scfg.secretKey, scfg.algorithm), decode)
        == Success(CurrentUser(Jwt.Str(PyInt.NatToString(u.id)), Jwt.Str(u.username)))
  {
    var claims := Security.AccessClaims(AuthService.LoginClaims(u), now, scfg.expireMinutes);
    assert claims["sub"] == Jwt.Str(PyInt.NatToString(u.id));
    assert claims["username"] == Jwt.Str(u.username);
  }
}
