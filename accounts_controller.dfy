/** Controllers/AccountsController.cs: registration, login with lockout, and
    the two credential changes, as a class over the Accounts and Tokens tables.
    Each method takes the request's `now`; the caller's AccountId and TgId
    (read from the session token's claims in the source) are parameters.
    Password hashing, password verification, token signing, the signing
    library's acceptance of a key and the email format check are the injected
    functions `hash`, `verify`, `sign`, `keyAccepted` and `isEmail`. A
    `SaveChangesAsync` is a commit: the model assigns the tables there, and a
    request that fails before it leaves them as they were. */
module AccountsControllers {
  import opened Common
  import opened Accounts
  import opened Schema
  import opened Lockout
  import opened Session
  import opened AuthResponses
  import opened Dtos
  import opened AccountService
  import opened Queries

  /** Why a request ended in an unhandled exception (HTTP 500). */
  datatype Fault =
    | DuplicateTgId    // the unique index on TgId rejects the inserted account
    | JwtKeyUnusable   // GenerateJwtToken finds no usable signing key
    | MalformedHash    // BCrypt.Verify throws

  datatype Reply =
    | Reply(status: int, body: AuthResponse)
    | ValidationProblem   // the automatic 400 of [ApiController] for an invalid DTO
    | ServerError(fault: Fault)

  const InvalidTokenMessage: string := "Invalid or expired token"
  const EmailExistsMessage: string := "Email already exists"
  const InvalidCredentialsMessage: string := "Invalid credentials"
  const BannedMessage: string := "Account banned"
  const AccountNotFoundMessage: string := "Account not found"
  const EmailInUseMessage: string := "Email already in use"

  /** "Account locked until {time}"; the time is written as its seconds count. */
  function LockedMessage(until: Time): string
  {
    "Account locked until " + IntText(until)
  }

  /** The 401 message for a refused login. */
  function RefusalMessage(v: Verdict): string
  {
    match v
    case Granted => DefaultMessage
    case InvalidCredentials => InvalidCredentialsMessage
    case LockedOut(until) => LockedMessage(until)
    case AccountBanned => BannedMessage
  }

  /** A new session on the row: the token and its expiry, replaced together. */
  function WithSession(a: Account, jwt: string, now: Time): (r: Account)
    ensures r.jwt == jwt && r.jwtExpiry == now + Day && IsJwtValid(r, now)
    ensures r.(jwt := a.jwt, jwtExpiry := a.jwtExpiry) == a
  {
    a.(jwt := jwt, jwtExpiry := now + Day)
  }

  predicate IsOk(r: Reply) { r.Reply? && r.status == 200 }

  class AccountsController {
    var accounts: map<int, Account>
    var tokens: map<int, Token>
    /** The next value of the AccountId identity column. */
    var nextId: int
    const jwtConfig: JwtConfig
    const keyAccepted: string -> bool
    const sign: (JwtPayload, string) -> string
    const hash: string -> string
    const verify: (string, string) -> BcryptResult
    const isEmail: string -> bool

    ghost predicate Valid()
      reads this
    {
      && TablesOk(accounts, tokens)
      && (forall k :: k in accounts ==> k < nextId)
    }

    /** BCrypt's round trip: a password verifies against its own hash. */
    ghost predicate HasherSound()
    {
      forall p :: verify(p, hash(p)) == Verified(true)
    }

    constructor (accounts: map<int, Account>, tokens: map<int, Token>, nextId: int, jwtConfig: JwtConfig,
                 keyAccepted: string -> bool, sign: (JwtPayload, string) -> string, hash: string -> string,
                 verify: (string, string) -> BcryptResult, isEmail: string -> bool)
      requires TablesOk(accounts, tokens) && forall k :: k in accounts ==> k < nextId
      ensures Valid()
      ensures this.accounts == accounts && this.tokens == tokens && this.nextId == nextId
      ensures this.jwtConfig == jwtConfig && this.keyAccepted == keyAccepted
      ensures this.sign == sign && this.hash == hash
      ensures this.verify == verify && this.isEmail == isEmail
    {
      this.accounts, this.tokens, this.nextId := accounts, tokens, nextId;
      this.jwtConfig, this.keyAccepted, this.sign := jwtConfig, keyAccepted, sign;
      this.hash, this.verify, this.isEmail := hash, verify, isEmail;
    }

    /** The token sent with a credential change, looked up under the caller's
        TgId, is usable. */
    ghost predicate CallerTokenOk(t: map<int, Token>, code: string, tgId: int, now: Time)
    {
      tgId in t && TokenMatches(t[tgId], code, Some(tgId), now)
    }

    /** Register. The token is found by its code alone. After the first save
        the account exists and the token is used; the session is written by a
        second save, so a failure to sign leaves the account with an empty
        session that expired at `now`. */
    method Register(dto: RegisterDto, now: Time) returns (reply: Reply, ghost consumed: Option<int>)
      requires Valid()
      modifies this
      ensures Valid()
      ensures !RegisterDtoValid(dto, isEmail) ==> reply == ValidationProblem
      ensures RegisterDtoValid(dto, isEmail) && !AnyTokenMatches(old(tokens), dto.tgToken, None, now) ==>
                    reply == Reply(400, ErrorResponse(InvalidTokenMessage))
      ensures RegisterDtoValid(dto, isEmail) && AnyTokenMatches(old(tokens), dto.tgToken, None, now)
                && EmailTaken(old(accounts), dto.email) ==>
                    reply == Reply(409, ErrorResponse(EmailExistsMessage))
      ensures reply == ServerError(DuplicateTgId) ==>
                exists k :: k in old(tokens) && TokenMatches(old(tokens)[k], dto.tgToken, None, now)
                            && TgIdTaken(old(accounts), old(tokens)[k].tgId)
      ensures RegisterDtoValid(dto, isEmail) && AnyTokenMatches(old(tokens), dto.tgToken, None, now)
                && !EmailTaken(old(accounts), dto.email) ==>
                    consumed.Some? || reply == ServerError(DuplicateTgId)
      ensures consumed.None? ==> accounts == old(accounts) && tokens == old(tokens) && nextId == old(nextId)
      ensures consumed.Some? ==>
                var k := consumed.value;
                var id := old(nextId);
                && k in old(tokens) && TokenMatches(old(tokens)[k], dto.tgToken, None, now)
                && RegisterDtoValid(dto, isEmail) && !EmailTaken(old(accounts), dto.email)
                && tokens == old(tokens)[k := old(tokens)[k].(isUsed := true)]
                && nextId == id + 1
                && var a := NewAccount(id, dto.email, hash(dto.password), old(tokens)[k].tgId, now);
                   if !SigningKeyUsable(jwtConfig, keyAccepted) then
                     accounts == old(accounts)[id := a] && reply == ServerError(JwtKeyUnusable)
                   else
                     var jwt := sign(ControllerPayload(jwtConfig, a, now), jwtConfig.key.value);
                     && accounts == old(accounts)[id := WithSession(a, jwt, now)]
                     && reply == Reply(200, SuccessResponse(WithSession(a, jwt, now), jwt, now))
      ensures IsOk(reply) <==> consumed.Some? && SigningKeyUsable(jwtConfig, keyAccepted)
      ensures consumed.Some? && HasherSound() ==>
                verify(dto.password, accounts[old(nextId)].passwordHash) == Verified(true)
    {
      consumed := None;
      if !RegisterDtoValid(dto, isEmail) {
        return ValidationProblem, consumed;
      }
      var found := FindToken(tokens, dto.tgToken, None, now);
      if found.None? {
        return Reply(400, ErrorResponse(InvalidTokenMessage)), consumed;
      }
      if EmailTaken(accounts, dto.email) {
        return Reply(409, ErrorResponse(EmailExistsMessage)), consumed;
      }
      var k := found.value;
      var token := tokens[k];
      if TgIdTaken(accounts, token.tgId) {
        // the first SaveChangesAsync violates the unique index on TgId
        return ServerError(DuplicateTgId), consumed;
      }
      var id := nextId;
      var account := NewAccount(id, dto.email, hash(dto.password), token.tgId, now);
      RegisterDtoGuarantees(dto, isEmail);
      NewAccountRowOk(id, dto.email, hash(dto.password), token.tgId, now);
      InsertKeepsUnique(accounts, account);
      ConsumedTokenWritable(token, dto.tgToken, None, now);
      TokenUseKeepsTables(accounts, tokens, k);
      // first SaveChangesAsync: the account and the used token
      accounts := accounts[id := account];
      tokens := tokens[k := token.(isUsed := true)];
      nextId := nextId + 1;
      consumed := Some(k);
      var jwt := ControllerToken(jwtConfig, keyAccepted, sign, account, now);
      if jwt.Failure? {
        return ServerError(JwtKeyUnusable), consumed;
      }
      var session := WithSession(account, jwt.value, now);
      RowUpdateKeepsTables(accounts, tokens, id, session);
      // second SaveChangesAsync: the session
      accounts := accounts[id := session];
      reply := Reply(200, SuccessResponse(session, jwt.value, now));
    }

    /** HandleFailedLogin: the account with this email, if any, records a
        failure; the result says whether that locked it, and until when. */
    method HandleFailedLogin(email: string, now: Time) returns (isLocked: bool, lockedUntil: Option<Time>)
      requires Valid()
      modifies this
      ensures Valid()
      ensures tokens == old(tokens) && nextId == old(nextId)
      ensures !EmailTaken(old(accounts), email) ==> accounts == old(accounts) && !isLocked && lockedUntil == None
      ensures forall id :: id in old(accounts) && old(accounts)[id].email == email ==>
                && accounts == old(accounts)[id := RecordFailure(old(accounts)[id], now)]
                && isLocked == (old(accounts)[id].failedLoginAttempts + 1 >= LockThreshold)
                && lockedUntil == (if isLocked then Some(now + LockoutWindow) else None)
    {
      var found := FindAccountByEmail(accounts, email);
      if found.None? {
        return false, None;
      }
      var id := found.value;
      var failed := RecordFailure(accounts[id], now);
      RowUpdateKeepsTables(accounts, tokens, id, failed);
      accounts := accounts[id := failed];
      if failed.failedLoginAttempts >= LockThreshold {
        isLocked, lockedUntil := true, failed.accountLockedUntil;
      } else {
        isLocked, lockedUntil := false, None;
      }
    }

    /** What a login does to the row `id` found by email, and its reply: the
        password is verified first (a throwing verify is a 500), then the
        lockout policy of LoginStep decides; a granted login gets a new
        session unless signing fails. */
    ghost predicate LoginEffect(before: map<int, Account>, id: int, password: string, now: Time,
                                after: map<int, Account>, reply: Reply)
      requires id in before
    {
      var a := before[id];
      match verify(password, a.passwordHash)
      case Threw => after == before && reply == ServerError(MalformedHash)
      case Verified(ok) =>
        var step := LoginStep(a, ok, now);
        if step.1 != Granted then
          after == before[id := step.0] && reply == Reply(401, ErrorResponse(RefusalMessage(step.1)))
        else if !SigningKeyUsable(jwtConfig, keyAccepted) then
          after == before && reply == ServerError(JwtKeyUnusable)
        else
          var jwt := sign(ControllerPayload(jwtConfig, step.0, now), jwtConfig.key.value);
          after == before[id := WithSession(step.0, jwt, now)]
          && reply == Reply(200, SuccessResponse(WithSession(step.0, jwt, now), jwt, now))
    }

    method Login(dto: LoginDto, now: Time) returns (reply: Reply, ghost target: Option<int>)
      requires Valid()
      modifies this
      ensures Valid()
      ensures tokens == old(tokens) && nextId == old(nextId)
      ensures !LoginDtoValid(dto, isEmail) ==> reply == ValidationProblem && accounts == old(accounts)
      ensures target.Some? <==> LoginDtoValid(dto, isEmail) && EmailTaken(old(accounts), dto.email)
      ensures LoginDtoValid(dto, isEmail) && target.None? ==>
                reply == Reply(401, ErrorResponse(InvalidCredentialsMessage)) && accounts == old(accounts)
      ensures target.Some? ==>
                && target.value in old(accounts) && old(accounts)[target.value].email == dto.email
                && LoginEffect(old(accounts), target.value, dto.password, now, accounts, reply)
    {
      target := None;
      if !LoginDtoValid(dto, isEmail) {
        return ValidationProblem, target;
      }
      var found := FindAccountByEmail(accounts, dto.email);
      if found.None? {
        var isLocked, lockedUntil := HandleFailedLogin(dto.email, now);
        return Reply(401, ErrorResponse(InvalidCredentialsMessage)), target;
      }
      var id := found.value;
      target := found;
      var account := accounts[id];
      var check := verify(dto.password, account.passwordHash);
      if check.Threw? {
        return ServerError(MalformedHash), target;
      }
      if !check.matches {
        var isLocked, lockedUntil := HandleFailedLogin(dto.email, now);
        if isLocked {
          return Reply(401, ErrorResponse(LockedMessage(lockedUntil.value))), target;
        }
        return Reply(401, ErrorResponse(InvalidCredentialsMessage)), target;
      }
      if account.banned {
        return Reply(401, ErrorResponse(BannedMessage)), target;
      }
      if IsLocked(account, now) {
        return Reply(401, ErrorResponse(LockedMessage(account.accountLockedUntil.value))), target;
      }
      account := account.(lastLogin := Some(now), failedLoginAttempts := 0);
      var jwt := ControllerToken(jwtConfig, keyAccepted, sign, account, now);
      if jwt.Failure? {
        return ServerError(JwtKeyUnusable), target;
      }
      account := WithSession(account, jwt.value, now);
      RowUpdateKeepsTables(accounts, tokens, id, account);
      accounts := accounts[id := account];
      reply := Reply(200, SuccessResponse(account, jwt.value, now));
    }

    /** UpdateEmail: the token must belong to the caller's TgId; the new email
        must be used by no account at all, the caller's own included. The
        email, the token and the session are committed together. */
    method UpdateEmail(dto: UpdateEmailDto, callerId: int, callerTgId: int, now: Time) returns (reply: Reply)
      requires Valid()
      modifies this
      ensures Valid()
      ensures nextId == old(nextId)
      ensures !UpdateEmailDtoValid(dto, isEmail) ==> reply == ValidationProblem
      ensures UpdateEmailDtoValid(dto, isEmail) && !CallerTokenOk(old(tokens), dto.tgToken, callerTgId, now) ==>
                    reply == Reply(400, ErrorResponse(InvalidTokenMessage))
      ensures UpdateEmailDtoValid(dto, isEmail) && CallerTokenOk(old(tokens), dto.tgToken, callerTgId, now)
                && callerId !in old(accounts) ==>
                    reply == Reply(404, ErrorResponse(AccountNotFoundMessage))
      ensures UpdateEmailDtoValid(dto, isEmail) && CallerTokenOk(old(tokens), dto.tgToken, callerTgId, now)
                && callerId in old(accounts) && EmailTaken(old(accounts), dto.newEmail) ==>
                    reply == Reply(409, ErrorResponse(EmailInUseMessage))
      ensures UpdateEmailDtoValid(dto, isEmail) && CallerTokenOk(old(tokens), dto.tgToken, callerTgId, now)
                && callerId in old(accounts) && !EmailTaken(old(accounts), dto.newEmail)
                && !SigningKeyUsable(jwtConfig, keyAccepted) ==>
                    reply == ServerError(JwtKeyUnusable)
      ensures IsOk(reply) <==>
                && UpdateEmailDtoValid(dto, isEmail) && CallerTokenOk(old(tokens), dto.tgToken, callerTgId, now)
                && callerId in old(accounts) && !EmailTaken(old(accounts), dto.newEmail)
                && SigningKeyUsable(jwtConfig, keyAccepted)
      ensures !IsOk(reply) ==> accounts == old(accounts) && tokens == old(tokens)
      ensures IsOk(reply) ==>
                var a := old(accounts)[callerId].(email := dto.newEmail);
                var jwt := sign(ControllerPayload(jwtConfig, a, now), jwtConfig.key.value);
                && accounts == old(accounts)[callerId := WithSession(a, jwt, now)]
                && tokens == old(tokens)[callerTgId := old(tokens)[callerTgId].(isUsed := true)]
                && reply.body == SuccessResponse(WithSession(a, jwt, now), jwt, now)
    {
      if !UpdateEmailDtoValid(dto, isEmail) {
        return ValidationProblem;
      }
      var found := FindToken(tokens, dto.tgToken, Some(callerTgId), now);
      ScopedLookupIsKeyLookup(tokens, dto.tgToken, callerTgId, now);
      if found.None? {
        return Reply(400, ErrorResponse(InvalidTokenMessage));
      }
      var k := found.value;
      if callerId !in accounts {
        return Reply(404, ErrorResponse(AccountNotFoundMessage));
      }
      if EmailTaken(accounts, dto.newEmail) {
        return Reply(409, ErrorResponse(EmailInUseMessage));
      }
      var account := accounts[callerId].(email := dto.newEmail);
      var jwt := ControllerToken(jwtConfig, keyAccepted, sign, account, now);
      if jwt.Failure? {
        return ServerError(JwtKeyUnusable);
      }
      account := WithSession(account, jwt.value, now);
      RowUpdateKeepsTables(accounts, tokens, callerId, account);
      TokenUseKeepsTables(accounts[callerId := account], tokens, k);
      accounts := accounts[callerId := account];
      tokens := tokens[k := tokens[k].(isUsed := true)];
      reply := Reply(200, SuccessResponse(account, jwt.value, now));
    }

    /** UpdatePassword: as UpdateEmail, with the new password's hash as the
        changed field and no uniqueness check. */
    method UpdatePassword(dto: UpdatePasswordDto, callerId: int, callerTgId: int, now: Time) returns (reply: Reply)
      requires Valid()
      modifies this
      ensures Valid()
      ensures nextId == old(nextId)
      ensures !UpdatePasswordDtoValid(dto) ==> reply == ValidationProblem
      ensures UpdatePasswordDtoValid(dto) && !CallerTokenOk(old(tokens), dto.tgToken, callerTgId, now) ==>
                    reply == Reply(400, ErrorResponse(InvalidTokenMessage))
      ensures UpdatePasswordDtoValid(dto) && CallerTokenOk(old(tokens), dto.tgToken, callerTgId, now)
                && callerId !in old(accounts) ==>
                    reply == Reply(404, ErrorResponse(AccountNotFoundMessage))
      ensures UpdatePasswordDtoValid(dto) && CallerTokenOk(old(tokens), dto.tgToken, callerTgId, now)
                && callerId in old(accounts) && !SigningKeyUsable(jwtConfig, keyAccepted) ==>
                    reply == ServerError(JwtKeyUnusable)
      ensures IsOk(reply) <==>
                && UpdatePasswordDtoValid(dto) && CallerTokenOk(old(tokens), dto.tgToken, callerTgId, now)
                && callerId in old(accounts) && SigningKeyUsable(jwtConfig, keyAccepted)
      ensures !IsOk(reply) ==> accounts == old(accounts) && tokens == old(tokens)
      ensures IsOk(reply) ==>
                var a := old(accounts)[callerId].(passwordHash := hash(dto.newPassword));
                var jwt := sign(ControllerPayload(jwtConfig, a, now), jwtConfig.key.value);
                && accounts == old(accounts)[callerId := WithSession(a, jwt, now)]
                && tokens == old(tokens)[callerTgId := old(tokens)[callerTgId].(isUsed := true)]
                && reply.body == SuccessResponse(WithSession(a, jwt, now), jwt, now)
      ensures IsOk(reply) && HasherSound() ==>
                verify(dto.newPassword, accounts[callerId].passwordHash) == Verified(true)
    {
      if !UpdatePasswordDtoValid(dto) {
        return ValidationProblem;
      }
      var found := FindToken(tokens, dto.tgToken, Some(callerTgId), now);
      ScopedLookupIsKeyLookup(tokens, dto.tgToken, callerTgId, now);
      if found.None? {
        return Reply(400, ErrorResponse(InvalidTokenMessage));
      }
      var k := found.value;
      if callerId !in accounts {
        return Reply(404, ErrorResponse(AccountNotFoundMessage));
      }
      var account := accounts[callerId].(passwordHash := hash(dto.newPassword));
      var jwt := ControllerToken(jwtConfig, keyAccepted, sign, account, now);
      if jwt.Failure? {
        return ServerError(JwtKeyUnusable);
      }
      account := WithSession(account, jwt.value, now);
      RowUpdateKeepsTables(accounts, tokens, callerId, account);
      TokenUseKeepsTables(accounts[callerId := account], tokens, k);
      accounts := accounts[callerId := account];
      tokens := tokens[k := tokens[k].(isUsed := true)];
      reply := Reply(200, SuccessResponse(account, jwt.value, now));
    }
  }

  /** A registration that succeeded cannot be repeated: its token is used and
      its email taken, so the same request a second time is refused. */
  method RegisterTwice(c: AccountsController, dto: RegisterDto, now: Time) returns (first: Reply, second: Reply)
    requires c.Valid()
    modifies c
    ensures c.Valid()
    ensures IsOk(first) ==> !IsOk(second)
  {
    ghost var used;
    first, used := c.Register(dto, now);
    ghost var again;
    if IsOk(first) {
      assert c.accounts[old(c.nextId)].email == dto.email;
    }
    second, again := c.Register(dto, now);
  }
}
