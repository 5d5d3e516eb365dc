/** The pure parts of Services/AccountService.cs: the token check, the
    password-verification wrapper and the text post-processing of
    GenerateToken. Its GenerateJwtToken is ServiceToken in module Session. */
module AccountService {
  import opened Common
  import opened Schema
  import opened Queries

  /** What `BCrypt.Verify` does: answer, or throw (on a malformed hash). */
  datatype BcryptResult = Verified(matches: bool) | Threw

  /** VerifyPassword: true exactly when the hash verifies; a throwing verify
      is reported as false, never propagated. */
  function VerifyPassword(verify: (string, string) -> BcryptResult, password: string, passwordHash: string): (ok: bool)
    ensures ok <==> verify(password, passwordHash) == Verified(true)
    ensures verify(password, passwordHash) == Threw ==> !ok
  {
    match verify(password, passwordHash)
    case Verified(b) => b
    case Threw => false
  }

  /** ValidateTelegramToken: whether some stored token has this code, belongs
      to this TgId, is unused and has not expired. It only reads the table. */
  method ValidateTelegramToken(tokens: map<int, Token>, token: string, tgId: int, now: Time) returns (ok: bool)
    ensures ok <==> AnyTokenMatches(tokens, token, Some(tgId), now)
    ensures ok && TokensKeyed(tokens) ==>
              tgId in tokens && tokens[tgId].tgToken == token && !tokens[tgId].isUsed && tokens[tgId].expiredAt > now
  {
    var found := FindToken(tokens, token, Some(tgId), now);
    ok := found.Some?;
    if ok && TokensKeyed(tokens) {
      ScopedLookupIsKeyLookup(tokens, token, tgId, now);
    }
  }

  /** `s.Replace(from, to)` for one-character strings. */
  function ReplaceChar(s: string, from: char, to: char): (r: string)
    ensures |r| == |s|
    ensures forall i :: 0 <= i < |s| ==> r[i] == (if s[i] == from then to else s[i])
  {
    if s == [] then [] else [if s[0] == from then to else s[0]] + ReplaceChar(s[1..], from, to)
  }

  /** `s.Replace(c, "")`: every other character stays, in order, moved left
      by the number of occurrences of `c` before it. */
  function RemoveChar(s: string, c: char): (r: string)
    ensures |r| == |s| - Count(s, c)
    ensures forall i :: 0 <= i < |r| ==> r[i] != c
    ensures forall i :: 0 <= i < |s| && s[i] != c ==>
              i - Count(s[..i], c) < |r| && r[i - Count(s[..i], c)] == s[i]
  {
    if s == [] then []
    else
      CountPrefixes(s, c);
      (if s[0] == c then [] else [s[0]]) + RemoveChar(s[1..], c)
  }

  /** Counting in a prefix of `s` that is not empty: its first character,
      then the matching prefix of `s[1..]`. */
  lemma CountPrefixes(s: string, c: char)
    requires s != []
    ensures forall i :: 0 < i <= |s| ==>
              Count(s[..i], c) == (if s[0] == c then 1 else 0) + Count(s[1..][..i - 1], c)
  {
    forall i | 0 < i <= |s|
      ensures Count(s[..i], c) == (if s[0] == c then 1 else 0) + Count(s[1..][..i - 1], c)
    {
      assert s[..i][1..] == s[1..][..i - 1];
    }
  }

  /** GenerateToken after the random bytes have been base64-encoded: the three
      Replace calls, in the source's order. */
  function GenerateToken(base64: string): (r: string)
    ensures forall i :: 0 <= i < |r| ==> r[i] != '+' && r[i] != '/' && r[i] != '='
    ensures |r| == |base64| - Count(base64, '=')
  {
    var plusFree := ReplaceChar(base64, '+', '-');
    var slashFree := ReplaceChar(plusFree, '/', '_');
    assert forall i :: 0 <= i < |slashFree| ==> slashFree[i] != '+' && slashFree[i] != '/';
    assert Count(slashFree, '=') == Count(base64, '=') by { ReplacePreservesCount(base64, '+', '-', '='); ReplacePreservesCount(plusFree, '/', '_', '='); }
    RemoveKeeps(slashFree, '=', '+');
    RemoveKeeps(slashFree, '=', '/');
    RemoveChar(slashFree, '=')
  }

  lemma {:induction false} ReplacePreservesCount(s: string, from: char, to: char, c: char)
    requires c != from && c != to
    ensures Count(ReplaceChar(s, from, to), c) == Count(s, c)
  {
    if s != [] {
      var r := ReplaceChar(s, from, to);
      assert r[1..] == ReplaceChar(s[1..], from, to);
      ReplacePreservesCount(s[1..], from, to, c);
    }
  }

  lemma {:induction false} RemoveKeeps(s: string, c: char, d: char)
    requires forall i :: 0 <= i < |s| ==> s[i] != d
    ensures forall i :: 0 <= i < |RemoveChar(s, c)| ==> RemoveChar(s, c)[i] != d
  {
    if s != [] {
      RemoveKeeps(s[1..], c, d);
    }
  }

  /** The base64 alphabet (section 4 of RFC 4648) and the URL-safe one
      (section 5). */
  predicate Base64Char(c: char) { 'A' <= c <= 'Z' || 'a' <= c <= 'z' || '0' <= c <= '9' || c == '+' || c == '/' }
  predicate UrlSafeChar(c: char) { 'A' <= c <= 'Z' || 'a' <= c <= 'z' || '0' <= c <= '9' || c == '-' || c == '_' }

  /** The character-by-character conversion from the base64 alphabet to the
      URL-safe one, with padding removed (sections 3.2 and 5 of RFC 4648). */
  function UrlSafe(s: string): string
  {
    if s == [] then []
    else (if s[0] == '=' then [] else [if s[0] == '+' then '-' else if s[0] == '/' then '_' else s[0]])
         + UrlSafe(s[1..])
  }

  /** The three Replace calls perform that conversion. */
  lemma {:induction false} GenerateTokenIsUrlSafe(s: string)
    ensures GenerateToken(s) == UrlSafe(s)
  {
    if s != [] {
      GenerateTokenIsUrlSafe(s[1..]);
      var p := ReplaceChar(s, '+', '-');
      assert p == [if s[0] == '+' then '-' else s[0]] + ReplaceChar(s[1..], '+', '-');
      var q := ReplaceChar(p, '/', '_');
      assert q[1..] == ReplaceChar(p[1..], '/', '_');
      assert p[1..] == ReplaceChar(s[1..], '+', '-');
      assert q == [q[0]] + q[1..];
    }
  }

  /** The output of `Convert.ToBase64String` for n bytes: 4 characters per
      started group of 3 bytes, the last (3 - n % 3) % 3 of them padding. */
  predicate IsBase64Of(s: string, n: nat)
  {
    var pad := (3 - n % 3) % 3;
    && |s| == 4 * ((n + 2) / 3)
    && (forall i :: 0 <= i < |s| - pad ==> Base64Char(s[i]))
    && (forall i :: |s| - pad <= i < |s| ==> s[i] == '=')
  }

  lemma {:induction false} CountAppend(a: string, b: string, c: char)
    ensures Count(a + b, c) == Count(a, c) + Count(b, c)
  {
    if a == [] {
      assert a + b == b;
    } else {
      assert (a + b)[1..] == a[1..] + b;
      CountAppend(a[1..], b, c);
    }
  }

  lemma {:induction false} CountNone(s: string, c: char)
    requires forall i :: 0 <= i < |s| ==> s[i] != c
    ensures Count(s, c) == 0
  {
    if s != [] { CountNone(s[1..], c); }
  }

  lemma {:induction false} CountAll(s: string, c: char)
    requires forall i :: 0 <= i < |s| ==> s[i] == c
    ensures Count(s, c) == |s|
  {
    if s != [] { CountAll(s[1..], c); }
  }

  lemma {:induction false} UrlSafeAlphabet(s: string)
    requires forall i :: 0 <= i < |s| ==> Base64Char(s[i]) || s[i] == '='
    ensures forall i :: 0 <= i < |UrlSafe(s)| ==> UrlSafeChar(UrlSafe(s)[i])
  {
    if s != [] { UrlSafeAlphabet(s[1..]); }
  }

  /** For the base64 text of n random bytes, GenerateToken yields a URL-safe
      string of ceil(4n/3) characters; for the default 32 bytes, 43. */
  lemma GenerateTokenShape(s: string, n: nat)
    requires IsBase64Of(s, n)
    ensures |GenerateToken(s)| == (4 * n + 2) / 3
    ensures forall i :: 0 <= i < |GenerateToken(s)| ==> UrlSafeChar(GenerateToken(s)[i])
    ensures n == 32 ==> |GenerateToken(s)| == 43
  {
    var pad := (3 - n % 3) % 3;
    var body, tail := s[..|s| - pad], s[|s| - pad..];
    assert s == body + tail;
    CountAppend(body, tail, '=');
    CountNone(body, '=');
    CountAll(tail, '=');
    var q := n / 3;
    assert n == 3 * q + n % 3;
    if n % 3 == 0 {
      assert (n + 2) / 3 == q && (4 * n + 2) / 3 == 4 * q;
    } else if n % 3 == 1 {
      assert (n + 2) / 3 == q + 1 && (4 * n + 2) / 3 == 4 * q + 2;
    } else {
      assert (n + 2) / 3 == q + 1 && (4 * n + 2) / 3 == 4 * q + 3;
    }
    GenerateTokenIsUrlSafe(s);
    UrlSafeAlphabet(s);
  }
}
