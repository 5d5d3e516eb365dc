/** The two lookups the account code runs against the database,
    `FirstOrDefaultAsync` with a predicate. Without an ORDER BY the database
    may return any matching row, so the model chooses one. */
module Queries {
  import opened Common
  import opened Accounts
  import opened Schema

  /** `Tokens.FirstOrDefaultAsync(t => t.TgToken == code [&& t.TgId == tgId]
      && !t.IsUsed && t.ExpiredAt > now)`: the key of some matching token,
      or None when no token matches. */
  method FindToken(tokens: map<int, Token>, code: string, tgId: Option<int>, now: Time) returns (found: Option<int>)
    ensures found.Some? ==> found.value in tokens && TokenMatches(tokens[found.value], code, tgId, now)
    ensures found.None? <==> !AnyTokenMatches(tokens, code, tgId, now)
  {
    if AnyTokenMatches(tokens, code, tgId, now) {
      var k :| k in tokens && TokenMatches(tokens[k], code, tgId, now);
      found := Some(k);
    } else {
      found := None;
    }
  }

  /** `Accounts.FirstOrDefaultAsync(a => a.Email == email)`. */
  method FindAccountByEmail(accounts: map<int, Account>, email: string) returns (found: Option<int>)
    ensures found.Some? ==> found.value in accounts && accounts[found.value].email == email
    ensures found.None? <==> !EmailTaken(accounts, email)
  {
    if exists k :: k in accounts && accounts[k].email == email {
      var k :| k in accounts && accounts[k].email == email;
      found := Some(k);
    } else {
      found := None;
    }
  }

  /** Because tokens are keyed by TgId, the lookup scoped to a TgId can only
      find the token stored under that TgId. */
  lemma ScopedLookupIsKeyLookup(tokens: map<int, Token>, code: string, tgId: int, now: Time)
    requires TokensKeyed(tokens)
    ensures AnyTokenMatches(tokens, code, Some(tgId), now) <==> tgId in tokens && TokenMatches(tokens[tgId], code, Some(tgId), now)
  {
  }

  /** Because emails are unique, the account found by email is the only one. */
  lemma EmailLookupIsUnique(accounts: map<int, Account>, email: string, j: int, k: int)
    requires UniqueEmails(accounts)
    requires j in accounts && accounts[j].email == email
    requires k in accounts && accounts[k].email == email
    ensures j == k
  {
  }
}
