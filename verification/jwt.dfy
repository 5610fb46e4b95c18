/** The interface of the JWT library as the services use it. Signing and
    verification are foreign: callers pass them in as functions. */
module Jwt {

  /** A claim value as it appears in a decoded payload. */
  datatype ClaimValue = Str(s: string) | Int(i: int) | Null

  type Claims = map<string, ClaimValue>

  /** `jwt.encode(payload, key, algorithm=alg)`. */
  type Encoder = (Claims, string, string) -> string

  /** `jwt.decode(token, key, algorithms=[...])`: the payload, or which
      exception it raised. */
  datatype DecodeOutcome =
    | Decoded(payload: Claims)
    | ExpiredSignature       // jwt.ExpiredSignatureError
    | InvalidToken           // any other jwt.PyJWTError

  type Decoder = (string, string, seq<string>) -> DecodeOutcome

  /** `payload.get(key) is not None`. */
  predicate Present(c: Claims, key: string) {
    key in c && c[key] != Null
  }
}
