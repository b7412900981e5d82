/** The records that both stores keep and the handlers pass around. */
module Models {

  type Byte = b: int | 0 <= b < 256
  type Bytes = seq<Byte>

  /** Nanoseconds since Go's zero time, so `ZERO_TIME` is the value for which `IsZero` holds. */
  type Time = int
  const ZERO_TIME: Time := 0
  const SECOND: int := 1_000_000_000
  const MINUTE: int := 60 * SECOND

  datatype Option<+T> = None | Some(value: T)

  datatype Error =
    | ErrNotFound
    | ErrConflict
    | ErrExpired
    | ErrAttemptsExceeded
    | ErrInvalidCredential
    | ErrPersist // the durable store could not replace its disk image
    | ErrRead // it could not read or parse the image

  datatype Result<+T> = Ok(value: T) | Err(error: Error)

  datatype User = User(
    id: string, identifier: string, displayName: string, webAuthnID: Bytes,
    verified: bool, disabled: bool, createdAt: Time)

  datatype NewUser = NewUser(id: string, identifier: string, displayName: string, webAuthnID: Bytes)

  datatype PasswordCredential = PasswordCredential(hash: string, updatedAt: Time)

  datatype PasskeyCredential = PasskeyCredential(
    id: Bytes, publicKey: Bytes, attestationType: string, transports: seq<string>,
    userPresent: bool, userVerified: bool, backupEligible: bool, backupState: bool,
    aaguid: Bytes, signCount: nat, attachment: string, cloneWarning: bool, name: string, createdAt: Time)

  datatype TOTPCredential = TOTPCredential(encryptedSecret: Bytes, confirmed: bool, createdAt: Time)

  datatype RecoveryCode = RecoveryCode(proof: Bytes, usedAt: Time)

  const PURPOSE_LOGIN_CODE := "login_code"
  const PURPOSE_VERIFY_ACCOUNT := "verify_account"
  const PURPOSE_PASSWORD_RESET := "password_reset"

  datatype OneTimeCode = OneTimeCode(
    id: string, userID: string, recipient: string, purpose: string, proof: Bytes,
    expiresAt: Time, attempts: nat, maxAttempts: int)

  datatype AuthLevel = LevelPassword | LevelMFA | LevelPasskey | LevelCode

  datatype Session = Session(
    id: string, userID: string, level: AuthLevel, authenticatedAt: Time, expiresAt: Time,
    lastSeenAt: Time, userAgent: string, remoteAddr: string)

  datatype Challenge = Challenge(id: string, kind: string, userID: string, payload: Bytes, expiresAt: Time)
}
