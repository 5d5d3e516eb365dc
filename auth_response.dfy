/** The response body of the account endpoints (Models/AuthResponse.cs) and
    its two builders. Fields a builder does not set keep their defaults:
    false, 0, the empty string, None and the default message. */
module AuthResponses {
  import opened Common
  import opened Accounts

  datatype AuthResponse = AuthResponse(
    success: bool,
    message: string,
    accountId: int,
    email: string,
    tgId: int,
    accessToken: string,
    tokenExpiry: Time,
    role: int,
    isBanned: bool,
    isLocked: bool,
    lockedUntil: Option<Time>,
    mCoins: int,
    maxCharCount: int,
    createdAt: Time,
    lastLogin: Option<Time>)

  const DefaultMessage: string := "Authentication successful"

  /** `SuccessResponse(account, token)`: the account's public fields and the
      token just issued. The lock flag is computed the same way as
      `Account.IsLocked`, and the expiry is the stored one, not recomputed. */
  function SuccessResponse(a: Account, token: string, now: Time): (r: AuthResponse)
    ensures r.success && r.message == DefaultMessage
    ensures r.accessToken == token && r.tokenExpiry == a.jwtExpiry
    ensures r.accountId == a.accountId && r.email == a.email && r.tgId == a.tgId && r.role == a.role
    ensures r.isBanned == a.banned && r.lockedUntil == a.accountLockedUntil
    ensures r.isLocked == IsLocked(a, now)
    ensures r.mCoins == a.mCoins && r.maxCharCount == a.maxCharCount
    ensures r.createdAt == a.createdAt && r.lastLogin == a.lastLogin
  {
    AuthResponse(
      success := true,
      message := DefaultMessage,
      accountId := a.accountId,
      email := a.email,
      tgId := a.tgId,
      accessToken := token,
      tokenExpiry := a.jwtExpiry,
      role := a.role,
      isBanned := a.banned,
      isLocked := a.accountLockedUntil.Some? && a.accountLockedUntil.value > now,
      lockedUntil := a.accountLockedUntil,
      mCoins := a.mCoins,
      maxCharCount := a.maxCharCount,
      createdAt := a.createdAt,
      lastLogin := a.lastLogin)
  }

  /** `ErrorResponse(message)`: only the message, no account data, no token. */
  function ErrorResponse(message: string): (r: AuthResponse)
    ensures !r.success && r.message == message
    ensures r.accessToken == "" && r.email == "" && r.accountId == 0 && r.tgId == 0
    ensures r.lockedUntil == None && r.lastLogin == None && !r.isLocked
    ensures r.role == 0 && !r.isBanned && r.tokenExpiry == 0 && r.mCoins == 0 && r.maxCharCount == 0 && r.createdAt == 0
  {
    AuthResponse(false, message, 0, "", 0, "", 0, 0, false, false, None, 0, 0, 0, None)
  }

  /** A success response never carries a caller-chosen message, and it is
      never mistaken for an error response. */
  lemma SuccessIsNotError(a: Account, token: string, now: Time, message: string)
    ensures SuccessResponse(a, token, now) != ErrorResponse(message)
    ensures SuccessResponse(a, token, now).message == DefaultMessage
  {
  }
}
