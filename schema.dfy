/** The two tables of GameDbContext.cs and what the schema makes the database
    enforce on them: check constraints, unique indexes, required columns with
    maximum lengths, and the key of the Tokens table. Accounts are keyed by
    AccountId and tokens by TgId. */
module Schema {
  import opened Common
  import opened Accounts

  /** A verification token issued out of band (Models/Token.cs). */
  datatype Token = Token(tgId: int, chatId: int, tgToken: string, expiredAt: Time, isUsed: bool)

  /** CK_Accounts_Role, CK_Accounts_MCoins, CK_Accounts_MaxCharCount, and the
      required Email column of at most 50 UTF-16 code units. */
  predicate AccountRowOk(a: Account)
  {
    && 1 <= a.role <= 10
    && a.mCoins >= 0
    && 1 <= a.maxCharCount && a.maxCharCount <= 10
    && Utf16Length(a.email) <= 50
  }

  /** The required TgToken column of at most 5 UTF-16 code units. */
  predicate TokenRowOk(t: Token)
  {
    Utf16Length(t.tgToken) <= 5
  }

  /** CK_Tokens_Expiry: a token row can only be written while it has not
      expired, since the constraint compares with the database clock at the
      time of the write. It is a condition on writes, not on stored rows. */
  predicate TokenWritable(t: Token, now: Time)
  {
    t.expiredAt > now
  }

  /** The unique index on Email. */
  predicate UniqueEmails(accounts: map<int, Account>)
  {
    forall j, k :: j in accounts && k in accounts && j != k ==> accounts[j].email != accounts[k].email
  }

  /** The unique index on TgId. */
  predicate UniqueTgIds(accounts: map<int, Account>)
  {
    forall j, k :: j in accounts && k in accounts && j != k ==> accounts[j].tgId != accounts[k].tgId
  }

  predicate AccountsKeyed(accounts: map<int, Account>)
  {
    forall k :: k in accounts ==> accounts[k].accountId == k
  }

  /** `HasKey(t => t.TgId)`: a token is stored under its own TgId, so there is
      at most one token per TgId. */
  predicate TokensKeyed(tokens: map<int, Token>)
  {
    forall k :: k in tokens ==> tokens[k].tgId == k
  }

  /** Everything the schema makes the database maintain. */
  predicate TablesOk(accounts: map<int, Account>, tokens: map<int, Token>)
  {
    && AccountsKeyed(accounts)
    && (forall k :: k in accounts ==> AccountRowOk(accounts[k]))
    && UniqueEmails(accounts)
    && UniqueTgIds(accounts)
    && TokensKeyed(tokens)
    && (forall k :: k in tokens ==> TokenRowOk(tokens[k]))
  }

  /** `Accounts.AnyAsync(a => a.Email == email)`. */
  predicate EmailTaken(accounts: map<int, Account>, email: string)
  {
    exists k :: k in accounts && accounts[k].email == email
  }

  predicate TgIdTaken(accounts: map<int, Account>, tgId: int)
  {
    exists k :: k in accounts && accounts[k].tgId == tgId
  }

  /** The token query: the code matches, the token is unused and unexpired and,
      where the caller is known, it belongs to the caller's TgId. */
  predicate TokenMatches(t: Token, code: string, tgId: Option<int>, now: Time)
  {
    && t.tgToken == code
    && (tgId.Some? ==> t.tgId == tgId.value)
    && !t.isUsed
    && t.expiredAt > now
  }

  /** Some stored token passes the token query. */
  predicate AnyTokenMatches(tokens: map<int, Token>, code: string, tgId: Option<int>, now: Time)
  {
    exists k :: k in tokens && TokenMatches(tokens[k], code, tgId, now)
  }

  /** A row freshly inserted with the column defaults satisfies the checks,
      provided its email fits the column. */
  lemma NewAccountRowOk(id: int, email: string, hash: string, tgId: int, now: Time)
    requires Utf16Length(email) <= 50
    ensures AccountRowOk(NewAccount(id, email, hash, tgId, now))
  {
  }

  /** Consuming a matched token rewrites its row; CK_Tokens_Expiry accepts the
      write, because the token matched only while unexpired. */
  lemma ConsumedTokenWritable(t: Token, code: string, tgId: Option<int>, now: Time)
    requires TokenMatches(t, code, tgId, now)
    ensures TokenWritable(t.(isUsed := true), now)
    ensures !TokenMatches(t.(isUsed := true), code, tgId, now)
  {
  }

  /** Adding a row whose email and TgId are new keeps both indexes unique. */
  lemma {:induction false} InsertKeepsUnique(accounts: map<int, Account>, a: Account)
    requires UniqueEmails(accounts) && UniqueTgIds(accounts)
    requires a.accountId !in accounts
    requires !EmailTaken(accounts, a.email) && !TgIdTaken(accounts, a.tgId)
    ensures UniqueEmails(accounts[a.accountId := a]) && UniqueTgIds(accounts[a.accountId := a])
  {
    var m := accounts[a.accountId := a];
    forall j, k | j in m && k in m && j != k
      ensures m[j].email != m[k].email && m[j].tgId != m[k].tgId
    {
      if j == a.accountId {
        assert k in accounts && accounts[k] == m[k];
      } else if k == a.accountId {
        assert j in accounts && accounts[j] == m[j];
      }
    }
  }

  /** Rewriting one stored account keeps the tables consistent when the new
      row passes the checks and its email and TgId clash with no other row. */
  lemma RowUpdateKeepsTables(accounts: map<int, Account>, tokens: map<int, Token>, id: int, a: Account)
    requires TablesOk(accounts, tokens)
    requires id in accounts && a.accountId == id && AccountRowOk(a)
    requires forall k :: k in accounts && k != id ==> accounts[k].email != a.email && accounts[k].tgId != a.tgId
    ensures TablesOk(accounts[id := a], tokens)
  {
  }

  /** Marking a stored token used keeps the tables consistent. */
  lemma TokenUseKeepsTables(accounts: map<int, Account>, tokens: map<int, Token>, k: int)
    requires TablesOk(accounts, tokens) && k in tokens
    ensures TablesOk(accounts, tokens[k := tokens[k].(isUsed := true)])
  {
  }
}
