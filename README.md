# GameAPI accounts and characters, modelled in Dafny

This project models the authentication and character core of GameAPI, an
ASP.NET Core service backed by Entity Framework and SQL Server. It covers:

- registration gated by a one-time verification token sent over Telegram;
- login against a BCrypt hash, with a lockout after five failed attempts;
- session tokens (JWT) issued for one day;
- email and password changes, each of which uses up a fresh token;
- the request validators;
- the database constraints on the Accounts and Tokens tables;
- the per-account character list, with a character limit and soft deletion.

Modules follow the source files:

| module | file | models |
|---|---|---|
| `Common` | common.dfy | Option/Result, time constants, integer text and parsing |
| `Accounts` | account.dfy | the Account row, its defaults and its derived predicates |
| `Schema` | schema.dfy | the Token row, check constraints, unique indexes, keys |
| `Lockout` | lockout.dfy | the lockout policy of Login and HandleFailedLogin, as a pure state machine |
| `Dtos` | dtos.dfy | the data-annotation validators of the request DTOs |
| `Session` | session.dfy | claims, `FindFirstValue`, both JWT payloads |
| `AuthResponses` | auth_response.dfy | the `SuccessResponse` and `ErrorResponse` builders |
| `ErrorResponses` | error_response.dfy | the prefixing `ErrorResponse.Message` property |
| `Queries` | queries.dfy | the `FirstOrDefaultAsync` lookups on tokens and accounts |
| `AccountService` | account_service.dfy | token check, password-verify wrapper, URL-safe token text |
| `AccountsControllers` | accounts_controller.dfy | the accounts controller, as a class over the two tables |
| `CharactersControllers` | characters_controller.dfy | the characters controller, as a class over the Characters table |

How the model represents the system:

- Time is a count of seconds (`Time = int`), with `default(DateTime)` at 0.
- Each request takes one `now`. The application clock and `GETUTCDATE()` are
  taken to agree.
- Tables are maps:
  - accounts are keyed by AccountId;
  - tokens are keyed by TgId, their primary key;
  - characters are keyed by CharId.
- A `SaveChangesAsync` is where the model assigns the new tables. A request
  that returns before it leaves the tables unchanged.
- Library code the model cannot see is injected as function-typed constants:
  - BCrypt hashing (`hash`);
  - BCrypt verification (`verify`), which may throw;
  - JWT signing (`sign`);
  - whether the signing library takes a key, which it refuses below its
    minimum size for HMAC-SHA256 (`keyAccepted`);
  - the `[EmailAddress]` check (`isEmail`).
- `[ApiController]` validates the request body before an action runs, so an
  invalid DTO is answered with `ValidationProblem`. Register's own
  `ModelState.IsValid` branch therefore cannot be reached.
- The caller's AccountId and TgId come from the session token's claims in
  the source; here they are parameters. `Session.ClaimsIdentifyAccount`
  shows that the claims written by either issuer parse back to the account
  they were issued for.
- An unhandled exception (an HTTP 500) is `ServerError(fault)`, with one
  fault for each cause:
  - the unique index on TgId rejecting the new account;
  - a signing key that is missing, empty or refused by the signing library;
  - BCrypt throwing on a malformed hash.

Behaviour of the code that is easy to miss:

- A TgId uniqueness violation at commit is not turned into a Conflict. It is
  an unhandled exception (`DuplicateTgId`). Register never checks TgId itself.
- Registration commits twice. The account and the used token are saved
  together. The session is saved afterwards, so a signing failure leaves a
  committed account whose `Jwt` is empty and expired at registration time.
- `FailedLoginAttempts` is declared `[Range(0, 10)]`, but nothing enforces
  that range, so the counter reaches 11 and beyond.
- A wrong password on a locked account still counts as a failure, and it
  moves the lock forward.
- UpdateEmail refuses an email used by any account, the caller's own included.
- Only a missing `Jwt:Key` is fatal at startup (Program.cs:69-70). Issuer and
  audience may be absent, so they are `Option`s.
- The authentication middleware (Program.cs:145) builds the bearer options
  on every request, and with them `new SymmetricSecurityKey` of the key
  (Program.cs:89). An empty key makes that constructor throw, so every request
  ends in a 500 before any action runs. A non-empty key the signing library
  refuses as too short passes that point. It fails only when an action
  writes a token (Controllers/AccountsController.cs:210-222,
  Services/AccountService.cs:49-58). In Register, the account and the used
  token are then already committed.
- The validators count as .NET does. `StringLength`, `MinLength`,
  `MaxLength` and the regular expression's `.{8,}` count UTF-16 code units, so
  a character outside the Basic Multilingual Plane counts twice
  (`Common.Utf16Length`). The password expression's `\d` accepts the decimal
  digits of every script in that plane, such as ARABIC-INDIC DIGIT THREE; the
  character-name class `0-9` accepts only ASCII digits.
- The GameDbContext here has no `Characters` set, and Account has no
  `Characters` navigation, although CharactersController uses both. The
  model gives the characters controller a Characters table keyed by CharId.
  Its AccountId refers to an account, and the account's characters are the
  rows carrying its AccountId.

## Model

| member | source | states |
|---|---|---|
| `Common.IntTextRoundTrip` | Controllers/AccountsController.cs:204-207 | an integer written with `ToString` parses back to itself, so the numeric claims round-trip |
| `Accounts.NewAccount` | Models/Account.cs:14-39 | a new account takes the initializer defaults: role 1, not banned, 0 coins, 2 character slots, no failures, no lock, an empty session expired at creation; it is neither moderator nor admin nor locked, and it meets the declared ranges exactly when its email has at most 50 UTF-16 code units |
| `Accounts.IsLocked` | Models/Account.cs:41 | holds iff a lock time is set and lies after now |
| `Accounts.IsJwtValid` | Models/Account.cs:43 | holds iff the session expiry lies after now |
| `Accounts.IsAdmin` | Models/Account.cs:45 | holds iff the role is at least 10 |
| `Accounts.IsModerator` | Models/Account.cs:47 | holds iff the role is at least 2 |
| `Accounts.AdminIsModerator` | Models/Account.cs:45-47 | every administrator (role at least 10) is a moderator (role at least 2) |
| `Accounts.ExpiredLockIsInert` | Models/Account.cs:41 | a lock time that has passed no longer locks the account, now or at any later time |
| `Accounts.LockAndSessionExpireForever` | Models/Account.cs:41-43 | `IsLocked` and `IsJwtValid` can only turn from true to false as time passes |
| `Schema.TablesOk` | GameDbContext.cs:22-54 | holds iff rows sit under their keys, every account meets the three check constraints and the 50-unit Email column, emails and TgIds are unique, and every token's code fits its 5-unit column |
| `Schema.NewAccountRowOk` | GameDbContext.cs:22-41 | a freshly registered row satisfies the Role, MCoins and MaxCharCount check constraints and the Email length when its email fits |
| `Schema.ConsumedTokenWritable` | GameDbContext.cs:46-49 | marking a matched token used is accepted by CK_Tokens_Expiry, and the used token no longer matches |
| `Schema.InsertKeepsUnique` | GameDbContext.cs:29-34 | inserting an account with a new email and a new TgId keeps both unique indexes satisfied |
| `Schema.RowUpdateKeepsTables` | GameDbContext.cs:22-34 | rewriting one account with a valid row that clashes with no other row keeps every table constraint |
| `Schema.TokenUseKeepsTables` | GameDbContext.cs:51-54 | marking a stored token used keeps every table constraint |
| `Lockout.RecordFailure` | Controllers/AccountsController.cs:107-125 | a failure adds one to the counter and, at five or more, locks until 15 minutes from now; no other field changes; the account is locked afterwards iff the threshold was reached or it already was |
| `Lockout.LoginStep` | Controllers/AccountsController.cs:78-97 | a login is granted iff the password is right, the account is not banned and not locked; a wrong password records a failure whatever the ban or lock; a right password on a locked, unbanned account gets the lock message with the stored lock time; a granted login zeroes the counter, sets LastLogin and leaves the lock field |
| `Lockout.ConsecutiveFailures` | Controllers/AccountsController.cs:114-120 | n failures in a row add n to the counter; once the threshold is reached the lock is 15 minutes after the last failure; the ban flag is untouched |
| `Lockout.FiveFailuresLock` | Controllers/AccountsController.cs:78-94 | five failures lock the account until 15 minutes after the fifth; in that window the right password on an unbanned account gets the lock message with that time, and a wrong one gets it with the lock moved to 15 minutes after the new failure |
| `Lockout.GrantResetsCount` | Controllers/AccountsController.cs:96-97 | after a granted login, up to four failures leave the account unlocked and the fifth locks it |
| `Lockout.CounterLeavesDeclaredRange` | Models/Account.cs:37-38 | eleven failures from zero leave the counter at 11, outside the declared `[Range(0, 10)]` |
| `Common.Utf16Length` | Models/RegisterDto.cs:8 | the length .NET gives a string lies between its number of characters and twice that |
| `Common.Utf16LengthInBmp` | Models/RegisterDto.cs:8 | a string's UTF-16 length equals its number of characters iff every character is in the Basic Multilingual Plane |
| `Common.Utf16LengthAppend` | Models/RegisterDto.cs:13 | the UTF-16 length of a concatenation is the sum of the lengths |
| `Dtos.RegisterDtoValid` | Models/RegisterDto.cs:7-25 | holds iff the code has exactly 5 code units, the email is present, well-formed and at most 50 units, the password is present, 8 to 100 units and matches the expression, and the confirmation is present and equal to it |
| `Dtos.LoginDtoValid` | Models/LoginDto.cs:7-15 | holds iff the email is present, well-formed and at most 50 units and the password is present with 8 to 100 units |
| `Dtos.UpdateEmailDtoValid` | Models/UpdateEmailDto.cs:7-14 | holds iff the code has exactly 5 code units and the new email is present, well-formed and at most 50 units |
| `Dtos.UpdatePasswordDtoValid` | Models/UpdatePasswordDto.cs:7-14 | holds iff the code has exactly 5 code units and the new password is present, at least 8 units and matches the expression, with no upper bound |
| `Dtos.CharacterCreateDtoValid` | Models/CharacterCreateDto.cs:7-13 | holds iff the name is present and wholly 3 to 50 ASCII letters or digits, and the class is present with at most 20 code units |
| `Dtos.PasswordRegexIsStrongPassword` | Models/RegisterDto.cs:19-20 | on a non-empty password the regular expression accepts exactly: no line feed, at least 8 UTF-16 code units, a lowercase letter, an uppercase letter and a Unicode decimal digit (`\d`) |
| `Dtos.RegisterDtoGuarantees` | Models/RegisterDto.cs:7-25 | an accepted registration has a code of 5 UTF-16 code units, a well-formed non-empty email of at most 50 units, a strong password of at most 100 units, and a confirmation equal to it |
| `Dtos.PasswordRulesCountLikeDotNet` | Models/RegisterDto.cs:8-20 | a non-ASCII decimal digit satisfies `\d`; "Aa1" with four emoji is 7 characters but 11 code units and passes the minimum of 8; a code of five emoji is 10 units and fails `StringLength(5, 5)` |
| `Dtos.RegisteredCredentialsPassLater` | Models/LoginDto.cs:7-15 | credentials accepted at registration pass the login validator, and the password passes the password-change validator |
| `Dtos.LoginHasNoCharacterClassRule` | Models/LoginDto.cs:12-15 | the login validator accepts a password the registration regular expression refuses |
| `Dtos.UpdatePasswordHasNoUpperBound` | Models/UpdatePasswordDto.cs:11-14 | the password-change validator accepts passwords longer than any bound, unlike registration's 100 |
| `Dtos.UpdateEmailFitsColumn` | Models/UpdateEmailDto.cs:7-14 | an accepted new email is non-empty with at most 50 UTF-16 code units, and the code is exactly 5 units |
| `Dtos.CharacterCreateDtoGuarantees` | Models/CharacterCreateDto.cs:7-13 | an accepted character name is 3 to 50 ASCII letters or digits, as many code units as characters, and the class is non-empty with at most 20 code units |
| `Session.FindFirstValue` | Controllers/CharactersController.cs:116 | a value is found iff a claim of that kind exists, and what is found is the value of the first claim of that kind |
| `Session.IdentityClaims` | Controllers/AccountsController.cs:202-208 | the four identity claims in the source's order: NameIdentifier, Email, TgId and Role, the numbers as `ToString` writes them |
| `Session.ControllerPayload` | Controllers/AccountsController.cs:200-223 | the controller signs exactly the identity claims, expiring one day after now, with the configured issuer and audience |
| `Session.ServicePayload` | Services/AccountService.cs:34-47 | the service signs the identity claims followed by `jti`, expiring one day after now, with the configured issuer and audience |
| `Session.SigningKeyUsable` | Services/AccountService.cs:31-32 | holds iff a key is configured, is not empty and is one the signing library accepts |
| `Session.IdentityClaimsFirst` | Controllers/AccountsController.cs:202-208 | in the issued claim list, the first claim of each identity kind carries the account's id, email, TgId and role, whatever follows |
| `Session.ClaimsIdentifyAccount` | Controllers/AccountsController.cs:137-144 | claims issued by either generator parse back to the account's id, TgId, role and email |
| `Session.ControllerToken` | Controllers/AccountsController.cs:200-223 | the controller's token fails exactly when the key is missing, empty or refused by the signing library, and otherwise signs the four identity claims, expiring one day after now |
| `Session.ServiceToken` | Services/AccountService.cs:28-59 | the service's token fails exactly when the key is missing, empty or refused by the signing library, and otherwise signs the identity claims plus `jti` |
| `Session.JtiDistinguishesIssuances` | Services/AccountService.cs:34-40 | service issuances that differ in `jti` differ, and the controller's payload has no `jti` |
| `AuthResponses.SuccessResponse` | Models/AuthResponse.cs:20-40 | the success payload copies the account's public fields and the stored expiry, and reports `isLocked` exactly as `Account.IsLocked` |
| `AuthResponses.ErrorResponse` | Models/AuthResponse.cs:41-48 | an error payload is unsuccessful, carries the message, and every other field keeps its default: no account data, no token, role, coins, slots, expiry and creation time 0, neither banned nor locked |
| `AuthResponses.SuccessIsNotError` | Models/AuthResponse.cs:6-48 | a success payload is never an error payload and always has the default message |
| `ErrorResponses.ErrorResponse.constructor` | Models/ErrorResponse.cs:5 | a new response holds no message and reads as null |
| `ErrorResponses.ErrorResponse.Message` | Models/ErrorResponse.cs:9 | the getter is null iff nothing is stored, and otherwise is "ERROR: " followed by the stored text |
| `ErrorResponses.ErrorResponse.SetMessage` | Models/ErrorResponse.cs:10 | the setter replaces the stored value, so the next read is the new value with the prefix |
| `ErrorResponses.ReadBackDoublesPrefix` | Models/ErrorResponse.cs:7-11 | writing back a message that was read adds the prefix a second time |
| `Queries.FindToken` | Controllers/AccountsController.cs:36-40 | returns a token that matches the query (code, unused, unexpired, and owner where given), or nothing exactly when none matches |
| `Queries.FindAccountByEmail` | Controllers/AccountsController.cs:75-76 | returns an account with that email, or nothing exactly when no account has it |
| `Queries.ScopedLookupIsKeyLookup` | Controllers/AccountsController.cs:134-139 | because tokens are keyed by TgId, the lookup scoped to a TgId matches iff the token stored under that TgId matches |
| `Queries.EmailLookupIsUnique` | Controllers/AccountsController.cs:109-110 | with unique emails, the account found by email is the only one |
| `AccountService.VerifyPassword` | Services/AccountService.cs:66-77 | true exactly when BCrypt verifies the hash; a throwing verify gives false |
| `AccountService.ValidateTelegramToken` | Services/AccountService.cs:90-100 | true iff some token has the code, the TgId, is unused and unexpired; with keyed tokens, it is the one stored under that TgId |
| `AccountService.ReplaceChar` | Services/AccountService.cs:85-86 | the result has the input's length, with every occurrence of the character replaced and every other character kept |
| `AccountService.RemoveChar` | Services/AccountService.cs:87 | the result loses exactly the occurrences of the character and contains none of it; every other character stays, in order, moved left by the occurrences before it |
| `AccountService.GenerateToken` | Services/AccountService.cs:84-87 | the result has no '+', '/' or '=' and is as long as the base64 text minus its padding |
| `AccountService.GenerateTokenIsUrlSafe` | Services/AccountService.cs:84-87 | the three replacements are the base64-to-URL-safe conversion of RFC 4648 section 5 with padding dropped |
| `AccountService.GenerateTokenShape` | Services/AccountService.cs:79-88 | for the base64 text of n bytes the token has (4n+2)/3 URL-safe characters, 43 for the default 32 bytes |
| `AccountsControllers.WithSession` | Controllers/AccountsController.cs:61-63 | a new session sets the token and an expiry one day from now, which is valid now; nothing else changes |
| `AccountsControllers.AccountsController.constructor` | Controllers/AccountsController.cs:22-26 | the controller starts over consistent tables with its configuration and injected services |
| `AccountsControllers.AccountsController.Register` | Controllers/AccountsController.cs:30-67 | invalid body, no matching token (400), email taken (409) and a TgId clash (500) change nothing; otherwise the account with defaults and the used token are committed, and then either the session and a 200, or a 500 when no usable key is configured; it replies 200 iff it committed and the key is usable; the new password verifies when BCrypt round-trips; the tables stay consistent |
| `AccountsControllers.AccountsController.HandleFailedLogin` | Controllers/AccountsController.cs:107-125 | an unknown email changes nothing and reports unlocked; a known one records a failure and reports a lock, 15 minutes from now, exactly when the counter reached five |
| `AccountsControllers.AccountsController.Login` | Controllers/AccountsController.cs:72-105 | an unknown email is a plain 401 with no change; for a known one, a throwing verify is a 500, a refused attempt is a 401 with the refusal's message and `LoginStep`'s row, and a granted one gets a new session and a 200 unless no usable key is configured |
| `AccountsControllers.AccountsController.UpdateEmail` | Controllers/AccountsController.cs:131-163 | 400 when the caller's token does not match, 404 when the caller's account is missing, 409 when any account has the email; otherwise the email, the used token and a new session are committed together and 200 is returned; every refusal changes nothing |
| `AccountsControllers.AccountsController.UpdatePassword` | Controllers/AccountsController.cs:167-196 | as UpdateEmail without the uniqueness check, storing the new password's hash: 400 for an invalid body or token, 404 for a missing account, 500 with nothing changed when the key is not usable, otherwise 200 with the hash, the used token and a new session committed together; after success the new password verifies when BCrypt round-trips |
| `AccountsControllers.RegisterTwice` | Controllers/AccountsController.cs:36-46 | once a registration has succeeded, the same request again never succeeds |
| `CharactersControllers.GetCharacters` | Controllers/CharactersController.cs:24-30 | lists exactly the caller's characters that are not deleted, each as stored |
| `CharactersControllers.GetCharacter` | Controllers/CharactersController.cs:33-42 | finds the row iff it exists, is not deleted and is the caller's; otherwise NotFound |
| `CharactersControllers.GetCharacterAgreesWithGetCharacters` | Controllers/CharactersController.cs:27-39 | a character is found by id iff it is listed, and the found and listed rows agree |
| `CharactersControllers.KnownClass` | Controllers/CharactersController.cs:58 | holds iff the class is exactly "Warrior", "Mage" or "Rogue", ordinally |
| `CharactersControllers.NewCharacter` | Controllers/CharactersController.cs:61-68 | a new character is the caller's, with the requested name and class, Exp 0, created now and not deleted, with no LastPlayed, no DeleteDate and every content column (Models/Character.cs:31-36) null |
| `CharactersControllers.ApplyUpdate` | Controllers/CharactersController.cs:85-91 | an update gives the six content fields (CharInfo, Skills, Inventory, Stash, QuestInfo, ChatHistory) the request's values and LastPlayed now; name, class, Exp, owner and deletion state stay |
| `CharactersControllers.SoftDelete` | Controllers/CharactersController.cs:106-107 | deletion sets IsDeleted and DeleteDate to now and changes nothing else |
| `CharactersControllers.InsertLive` | Controllers/CharactersController.cs:55-71 | inserting a live row adds one to its owner's live count and nothing to anyone else's |
| `CharactersControllers.SoftDeleteLive` | Controllers/CharactersController.cs:101-109 | soft deletion removes the row from every account's live set |
| `CharactersControllers.UpdateLive` | Controllers/CharactersController.cs:85-93 | an update leaves every account's live set as it was |
| `CharactersControllers.DeleteFreesSlot` | Controllers/CharactersController.cs:55-56 | at the limit, deleting a live character brings the count below the limit again |
| `CharactersControllers.CharactersController.constructor` | Controllers/CharactersController.cs:18-21 | the controller starts over a consistent Characters table |
| `CharactersControllers.CharactersController.CreateCharacter` | Controllers/CharactersController.cs:45-74 | the checks run in order: invalid body, then no account (401), then the limit on non-deleted characters (400 with the limit), then an unknown class (400); success adds exactly one row for the caller with Exp 0, and the live count stays within MaxCharCount; every refusal changes nothing |
| `CharactersControllers.CharactersController.UpdateCharacter` | Controllers/CharactersController.cs:77-96 | 204 iff the caller owns a live row with that id, which then gets the update; otherwise 404 and no change; live sets are unchanged |
| `CharactersControllers.CharactersController.DeleteCharacter` | Controllers/CharactersController.cs:99-112 | 204 iff the row exists and is the caller's, deleted or not; the row stays with IsDeleted and a new DeleteDate, and it leaves the caller's live set; otherwise 404 and no change |

## Left out

- BCrypt is not modelled. Hashing and verification are the injected `hash` and `verify`. The salt and the work factor of 12 are not modelled, and neither is `AccountService.HashPassword`.
- JWT signing and serialisation are not modelled. A token is `sign(payload, key)`. Validation of incoming tokens (signature, issuer, audience, lifetime, zero skew) happens in the framework before the actions run.
- The random bytes and the base64 encoding in `GenerateToken` are not modelled. Only the character mapping after them is, with `IsBase64Of` describing its input.
- Dates in messages and claims are not formatted as .NET does. "Account locked until {time}" shows the lock time as a count of seconds.
- Reading the caller's claims is not modelled. A missing or malformed claim makes `int.Parse`/`long.Parse` throw; the model takes the caller's AccountId and TgId as parameters.
- Concurrency is not modelled. Two requests can both pass a check-then-act step: the email check, the token check, the character limit. The model runs requests one at a time, so `WithinLimits` holds only for sequential use.
- `Session.FindFirstValue`: compares claim types ordinally. .NET's `FindFirst` ignores case; the claim types the model issues and reads differ from each other in more than case, so the difference shows only with claims the model never issues.
- `Session.ControllerToken`: the signing library's minimum key size is the injected `keyAccepted`, not a number of bits, since it depends on the library's version.
- `Session.ServiceToken`: the same injected `keyAccepted` applies.
- `AccountsControllers.AccountsController.Register`, `Login`, `UpdateEmail` and `UpdatePassword` handle a missing or empty key in their token step, as the action code does on its own. In the running program neither case reaches an action: a missing key stops start-up, and an empty key fails every request in the authentication middleware. The reachable case of their key-failure branches is a non-empty key that `keyAccepted` refuses.
- Logging is not modelled: `_logger.LogInformation` after a token is issued (Services/AccountService.cs:57) and `_logger.LogError` when BCrypt throws (Services/AccountService.cs:74).
- `Dtos.IsDecimalDigit` lists the decimal-digit blocks of the Basic Multilingual Plane (Unicode general category Nd). Characters beyond that plane are two UTF-16 code units, neither of which `\d` matches, so none is listed.
- `Common.ParseInt` reads an optional minus sign and decimal digits. It does not model `long.Parse`'s acceptance of a leading '+' and surrounding white space, or its overflow exception outside the 64-bit range.
- String equality is ordinal. The model ignores two things SQL Server's `=` does in the queries of Controllers/AccountsController.cs:37-40, :45, :76, :110, :135-139, :150 and :171-175, and in the unique index on Email. It may use a case-insensitive collation for Email and TgToken. It also ignores trailing spaces whatever the collation, so "a@x.com " collides with "a@x.com", and a stored four-unit code matches a five-unit one that adds a space.
- Integers are unbounded. The model ignores int32/int64 overflow of AccountId, TgId, MCoins, Exp and the failure counter, and it does not reproduce identity values skipped by a failed insert.
- The PasswordHash column's 255-character bound and the Jwt column are not constrained.
- Request strings are never null. A JSON null fails `[Required]` just as a blank string does.
- `[EmailAddress]` is the injected predicate `isEmail`.
- The annotations on the Character entity (its CharName pattern) are not checked at save. Entity Framework does not run them, so neither does the model.
- A failing `SaveChangesAsync` is modelled only for the TgId unique index. Storage timeouts and other faults are not modelled.
- The rest of Program.cs is not part of this model, apart from the startup key check and the authentication middleware's key handling. That covers the listening URL (Program.cs:13), the JSON options (Program.cs:16-21), Swagger, HTTPS redirection and routing.
- UpdateAccountDto, GameDataController, CharacterResponseDto and the item, stat and effect DTOs are not part of this model. Nothing in the modelled core uses them.
- `CharactersControllers.GetCharacters`: returns a map from CharId to row rather than a list. The order of rows, which the query does not fix, is not modelled.
- `AccountsControllers.AccountsController.Register`: the password-verifies guarantee holds only under `HasherSound`, the assumption that BCrypt verifies a password against its own hash. BCrypt itself is outside the model.
- `AccountsControllers.AccountsController.UpdatePassword`: the same `HasherSound` condition applies.
