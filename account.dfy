/** The Account record (Models/Account.cs): its fields, the defaults a new
    Account gets, and the four derived flags, which the source evaluates
    against the clock and the model evaluates against an explicit `now`. */
module Accounts {
  import opened Common

  datatype Account = Account(
    accountId: int,
    email: string,
    passwordHash: string,
    tgId: int,
    role: int,
    banned: bool,
    jwt: string,
    jwtExpiry: Time,
    mCoins: int,
    maxCharCount: int,
    createdAt: Time,
    lastLogin: Option<Time>,
    failedLoginAttempts: int,
    accountLockedUntil: Option<Time>)

  const DefaultRole: int := 1
  const DefaultMaxCharCount: int := 2
  const ModeratorRole: int := 2
  const AdminRole: int := 10

  /** `new Account { Email, PasswordHash, TgId, Jwt = "", JwtExpiry = now }`:
      every field not given takes its initializer's value. */
  function NewAccount(id: int, email: string, passwordHash: string, tgId: int, now: Time): (a: Account)
    ensures a.accountId == id && a.email == email && a.passwordHash == passwordHash && a.tgId == tgId
    ensures a.role == 1 && !a.banned && a.mCoins == 0 && a.maxCharCount == 2
    ensures a.failedLoginAttempts == 0 && a.accountLockedUntil == None && a.lastLogin == None
    ensures a.jwt == "" && a.jwtExpiry == now && a.createdAt == now
    ensures !IsModerator(a) && !IsAdmin(a) && !IsLocked(a, now) && !IsJwtValid(a, now)
    ensures DeclaredRanges(a) <==> Utf16Length(email) <= 50
  {
    Account(id, email, passwordHash, tgId, DefaultRole, false, "", now, 0,
            DefaultMaxCharCount, now, None, 0, None)
  }

  /** `IsLocked`: a lock time is set and still in the future. */
  predicate IsLocked(a: Account, now: Time)
  {
    a.accountLockedUntil.Some? && a.accountLockedUntil.value > now
  }

  /** `IsJwtValid`: the session expiry is still in the future. */
  predicate IsJwtValid(a: Account, now: Time)
  {
    a.jwtExpiry > now
  }

  predicate IsAdmin(a: Account) { a.role >= AdminRole }

  predicate IsModerator(a: Account) { a.role >= ModeratorRole }

  /** The ranges the annotations declare: `[MaxLength(50)]` on Email,
      `[Range(0, int.MaxValue)]` on MCoins, `[Range(1, 10)]` on MaxCharCount,
      `[Range(0, 10)]` on FailedLoginAttempts. Entity Framework does not
      enforce these annotations when it saves; the database enforces only what
      the schema declares (see module Schema). */
  predicate DeclaredRanges(a: Account)
  {
    && Utf16Length(a.email) <= 50
    && a.mCoins >= 0
    && 1 <= a.maxCharCount <= 10
    && 0 <= a.failedLoginAttempts <= 10
  }

  /** Every administrator is a moderator. */
  lemma AdminIsModerator(a: Account)
    ensures IsAdmin(a) ==> IsModerator(a)
  {
  }

  /** A lock whose time has passed is inert, and a lock is lifted by nothing
      but the passing of time: once in the past it stays in the past. */
  lemma ExpiredLockIsInert(a: Account, now: Time, later: Time)
    requires a.accountLockedUntil.Some? && a.accountLockedUntil.value <= now
    requires now <= later
    ensures !IsLocked(a, now) && !IsLocked(a, later)
  {
  }

  /** IsLocked and IsJwtValid are monotone in time: once false, they stay false
      while the fields are not written. */
  lemma LockAndSessionExpireForever(a: Account, t: Time, later: Time)
    requires t <= later
    ensures IsLocked(a, later) ==> IsLocked(a, t)
    ensures IsJwtValid(a, later) ==> IsJwtValid(a, t)
  {
  }
}
