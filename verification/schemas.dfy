/** Request bodies of the credential service (backend/auth_service/schemas.py). */
module Schemas {
  import opened Wrappers
  import Utf8

  /** bcrypt only reads the first 72 bytes of its input. */
  const MaxPasswordBytes: nat := 72

  const PasswordTooLong: string := "password must be 72 bytes or fewer"

  /** The body of `POST /register`. */
  datatype UserCreate = UserCreate(username: string, email: string, password: string, confirmPassword: string)

  /** The body of `POST /login`: no validator runs on it. */
  datatype UserLogin = UserLogin(usernameOrEmail: string, password: string)

  datatype FieldError = FieldError(field: string, message: string)

  /** `UserCreate.validate_password`: the value itself, or the error when
      its UTF-8 encoding is longer than 72 bytes. */
  function ValidatePassword(v: string): (r: Result<string, string>)
    ensures r.Success? <==> Utf8.ByteLength(v) <= MaxPasswordBytes
    ensures r.Success? ==> r.value == v
    ensures r.Failure? ==> r.error == PasswordTooLong
  {
    Utf8.EncodeLength(v);
    var bytes := Utf8.Encode(v);
    if |bytes| > MaxPasswordBytes then Failure(PasswordTooLong) else Success(v)
  }

  /** The validator runs on `password` and on `confirm_password`; the body
      is rejected with one error per failing field. */
  function ValidateUserCreate(body: UserCreate): (r: Result<UserCreate, seq<FieldError>>)
    ensures r.Success? <==> ValidatePassword(body.password).Success? && ValidatePassword(body.confirmPassword).Success?
    ensures r.Success? ==> r.value == body
    ensures r.Failure? ==> |r.error| in {1, 2}
    ensures r.Failure? ==> forall e :: e in r.error ==> e.message == PasswordTooLong
    ensures r.Failure? ==> (FieldError("password", PasswordTooLong) in r.error <==> ValidatePassword(body.password).Failure?)
    ensures r.Failure? ==> (FieldError("confirm_password", PasswordTooLong) in r.error <==> ValidatePassword(body.confirmPassword).Failure?)
  {
    var errors :=
      (if ValidatePassword(body.password).Failure? then [FieldError("password", PasswordTooLong)] else [])
      + (if ValidatePassword(body.confirmPassword).Failure? then [FieldError("confirm_password", PasswordTooLong)] else []);
    if errors == [] then Success(body) else Failure(errors)
  }

  /** The limit counts bytes, not characters: 72 ASCII characters pass,
      18 characters of four bytes (72 bytes) pass, 19 of them (76 bytes)
      fail. */
  lemma PasswordLimitCountsBytes(ascii: string, astral: string)
    requires forall i :: 0 <= i < |ascii| ==> ascii[i] as int < 0x80
    requires forall i :: 0 <= i < |astral| ==> astral[i] as int >= 0x1_0000
    ensures ValidatePassword(ascii).Success? <==> |ascii| <= 72
    ensures ValidatePassword(astral).Success? <==> |astral| <= 18
  {
    Utf8.AsciiLength(ascii);
    Utf8.EncodeLength(ascii);
    Utf8.AstralLength(astral);
    Utf8.EncodeLength(astral);
  }
}
