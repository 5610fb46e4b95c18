/** Configuration, password hashing and token issuance of the credential
    service (backend/auth_service/security.py). */
module Security {
  import opened Wrappers
  import opened Http
  import Jwt
  import PyInt

  /** The three settings read from the environment when the module loads. */
  datatype SecurityConfig = SecurityConfig(secretKey: string, algorithm: string, expireMinutes: int)

  const ConfigErrorPrefix: string := "Error: Missing or invalid JWT environment variable: "

  /** `str(KeyError(name))` quotes the missing name. */
  function Quoted(name: string): string {
    "'" + name + "'"
  }

  /** Loading the configuration: a missing variable (looked up in the order
      secret, algorithm, lifetime) or a lifetime that `int()` rejects stops
      the process with `SystemExit`. */
  function LoadConfig(env: map<string, string>): (r: Result<SecurityConfig, SystemExit>)
    ensures r.Success? <==>
      && "JWT_SECRET_KEY" in env && "ALGORITHM" in env && "ACCESS_TOKEN_EXPIRE_MINUTES" in env
      && PyInt.ParseInt(env["ACCESS_TOKEN_EXPIRE_MINUTES"]).Some?
    ensures r.Success? ==>
      && r.value.secretKey == env["JWT_SECRET_KEY"]
      && r.value.algorithm == env["ALGORITHM"]
      && Some(r.value.expireMinutes) == PyInt.ParseInt(env["ACCESS_TOKEN_EXPIRE_MINUTES"])
    ensures "JWT_SECRET_KEY" !in env ==> r == Failure(SystemExit(ConfigErrorPrefix + Quoted("JWT_SECRET_KEY")))
    ensures "JWT_SECRET_KEY" in env && "ALGORITHM" !in env ==>
      r == Failure(SystemExit(ConfigErrorPrefix + Quoted("ALGORITHM")))
    ensures "JWT_SECRET_KEY" in env && "ALGORITHM" in env && "ACCESS_TOKEN_EXPIRE_MINUTES" !in env ==>
      r == Failure(SystemExit(ConfigErrorPrefix + Quoted("ACCESS_TOKEN_EXPIRE_MINUTES")))
    ensures && "JWT_SECRET_KEY" in env && "ALGORITHM" in env && "ACCESS_TOKEN_EXPIRE_MINUTES" in env
            && PyInt.ParseInt(env["ACCESS_TOKEN_EXPIRE_MINUTES"]).None? ==>
      r == Failure(SystemExit(ConfigErrorPrefix + "invalid literal for int() with base 10: "
                              + Quoted(env["ACCESS_TOKEN_EXPIRE_MINUTES"])))
  {
    if "JWT_SECRET_KEY" !in env then Failure(SystemExit(ConfigErrorPrefix + Quoted("JWT_SECRET_KEY")))
    else if "ALGORITHM" !in env then Failure(SystemExit(ConfigErrorPrefix + Quoted("ALGORITHM")))
    else if "ACCESS_TOKEN_EXPIRE_MINUTES" !in env then
      Failure(SystemExit(ConfigErrorPrefix + Quoted("ACCESS_TOKEN_EXPIRE_MINUTES")))
    else
      var text := env["ACCESS_TOKEN_EXPIRE_MINUTES"];
      match PyInt.ParseInt(text)
      case None => Failure(SystemExit(ConfigErrorPrefix + "invalid literal for int() with base 10: " + Quoted(text)))
      case Some(minutes) => Success(SecurityConfig(env["JWT_SECRET_KEY"], env["ALGORITHM"], minutes))
  }

  /** A lifetime written as `str(m)` loads as `m`. */
  lemma LoadConfigReadsMinutes(secret: string, algorithm: string, minutes: int)
    ensures LoadConfig(map["JWT_SECRET_KEY" := secret, "ALGORITHM" := algorithm,
                           "ACCESS_TOKEN_EXPIRE_MINUTES" := PyInt.IntToString(minutes)])
            == Success(SecurityConfig(secret, algorithm, minutes))
  {
    PyInt.ParseIntRoundTrip(minutes);
  }

  /** With the three variables set, the service starts with lifetime `m`
      exactly when the lifetime text is `m` as a signed decimal number
      between whitespace. */
  lemma LoadConfigMinutesExact(secret: string, algorithm: string, text: string, m: int)
    ensures var r := LoadConfig(map["JWT_SECRET_KEY" := secret, "ALGORITHM" := algorithm,
                                    "ACCESS_TOKEN_EXPIRE_MINUTES" := text]);
      r.Success? && r.value.expireMinutes == m <==> PyInt.IntText(text, m)
  {
    PyInt.ParseIntExact(text, m);
  }

  /** A lifetime with a unit, such as "15m", stops the service. */
  lemma UnitLifetimeAborts(secret: string, algorithm: string)
    ensures LoadConfig(map["JWT_SECRET_KEY" := secret, "ALGORITHM" := algorithm,
                           "ACCESS_TOKEN_EXPIRE_MINUTES" := "15m"]).Failure?
  {
    PyInt.UnitRejected();
  }

  /** The passlib context: the hashing scheme, its work factor and the two
      foreign primitives (a hash that salts internally, and a verifier that
      reads the salt and cost back from the stored hash). */
  datatype CryptContext = CryptContext(
    scheme: string,
    rounds: nat,
    hash: (string, nat) -> string,
    verify: (string, string) -> bool)

  const BcryptRounds: nat := 12

  /** `pwd_context`: bcrypt with 12 rounds. */
  function PwdContext(hash: (string, nat) -> string, verify: (string, string) -> bool): (ctx: CryptContext)
    ensures ctx.scheme == "bcrypt" && ctx.rounds == BcryptRounds
  {
    CryptContext("bcrypt", BcryptRounds, hash, verify)
  }

  /** `verify_password`. */
  function VerifyPassword(ctx: CryptContext, plain: string, hashed: string): bool {
    ctx.verify(plain, hashed)
  }

  /** `get_password_hash`. */
  function GetPasswordHash(ctx: CryptContext, password: string): string {
    ctx.hash(password, ctx.rounds)
  }

  /** Hashing through `pwd_context` always runs bcrypt with 12 rounds, and
      verification goes to the same context's verifier. */
  lemma PwdContextDelegates(hash: (string, nat) -> string, verify: (string, string) -> bool, pw: string, stored: string)
    ensures GetPasswordHash(PwdContext(hash, verify), pw) == hash(pw, 12)
    ensures VerifyPassword(PwdContext(hash, verify), pw, stored) == verify(pw, stored)
  {
  }

  /** The claims `create_access_token` signs: the caller's claims with
      `exp` set to the issue time plus the configured lifetime. */
  function AccessClaims(data: Jwt.Claims, now: int, expireMinutes: int): (c: Jwt.Claims)
    ensures c.Keys == data.Keys + {"exp"}
    ensures c["exp"] == Jwt.Int(now + 60 * expireMinutes)
    ensures forall k :: k in data && k != "exp" ==> c[k] == data[k]
  {
    data["exp" := Jwt.Int(now + 60 * expireMinutes)]
  }

  /** `create_access_token(data)`: copies the claims, adds `exp` to the
      copy and signs it with the configured secret and algorithm. `now` is
      `datetime.utcnow()` in whole seconds. */
  method CreateAccessToken(cfg: SecurityConfig, data: Jwt.Claims, now: int, encode: Jwt.Encoder)
    returns (token: string)
    ensures token == encode(AccessClaims(data, now, cfg.expireMinutes), cfg.secretKey, cfg.algorithm)
  {
    var toEncode := data;
    var expire := now + 60 * cfg.expireMinutes;
    toEncode := toEncode["exp" := Jwt.Int(expire)];
    token := encode(toEncode, cfg.secretKey, cfg.algorithm);
  }
}
