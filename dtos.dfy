/** The request validators: the data-annotation attributes on the request DTOs
    under Models/, each DTO's attributes read as one predicate. The
    `[EmailAddress]` check is library code and is passed in as `isEmail`.
    Strings are non-null here; a JSON null would fail `[Required]` just as a
    blank string does. Lengths are .NET string lengths, in UTF-16 code units
    (`Utf16Length`), and the regular expressions run over those code units. */
module Dtos {
  import opened Common

  /** `char.IsWhiteSpace`: the Unicode separators and the control characters
      U+0009 to U+000D and U+0085. */
  predicate IsWhiteSpace(c: char)
  {
    var n := c as int;
    || (9 <= n <= 13) || n == 32 || n == 0x85 || n == 0xA0 || n == 0x1680
    || (0x2000 <= n <= 0x200A) || n == 0x2028 || n == 0x2029 || n == 0x202F
    || n == 0x205F || n == 0x3000
  }

  /** `[Required]` on a string: present and not blank. */
  predicate Required(s: string)
  {
    exists i :: 0 <= i < |s| && !IsWhiteSpace(s[i])
  }

  predicate IsLower(c: char) { 'a' <= c <= 'z' }
  predicate IsUpper(c: char) { 'A' <= c <= 'Z' }

  predicate InBlock(n: int, start: int) { start <= n < start + 10 }

  /** `\d` in a .NET regular expression: a character of the Unicode category
      Nd (decimal digit number). The pattern is matched against UTF-16 code
      units, so only the digit blocks of the Basic Multilingual Plane, listed
      here by their first code point, can match. */
  predicate IsDecimalDigit(c: char)
  {
    var n := c as int;
    || InBlock(n, 0x0030) || InBlock(n, 0x0660) || InBlock(n, 0x06F0) || InBlock(n, 0x07C0)
    || InBlock(n, 0x0966) || InBlock(n, 0x09E6) || InBlock(n, 0x0A66) || InBlock(n, 0x0AE6)
    || InBlock(n, 0x0B66) || InBlock(n, 0x0BE6) || InBlock(n, 0x0C66) || InBlock(n, 0x0CE6)
    || InBlock(n, 0x0D66) || InBlock(n, 0x0DE6) || InBlock(n, 0x0E50) || InBlock(n, 0x0ED0)
    || InBlock(n, 0x0F20) || InBlock(n, 0x1040) || InBlock(n, 0x1090) || InBlock(n, 0x17E0)
    || InBlock(n, 0x1810) || InBlock(n, 0x1946) || InBlock(n, 0x19D0) || InBlock(n, 0x1A80)
    || InBlock(n, 0x1A90) || InBlock(n, 0x1B50) || InBlock(n, 0x1BB0) || InBlock(n, 0x1C40)
    || InBlock(n, 0x1C50) || InBlock(n, 0xA620) || InBlock(n, 0xA8D0) || InBlock(n, 0xA900)
    || InBlock(n, 0xA9D0) || InBlock(n, 0xA9F0) || InBlock(n, 0xAA50) || InBlock(n, 0xABF0)
    || InBlock(n, 0xFF10)
  }

  /** `.` in a .NET regular expression: any character but a line feed. */
  predicate NoLineFeed(s: string)
  {
    forall i :: 0 <= i < |s| ==> s[i] != '\n'
  }

  /** The lookahead `(?=.*X)` at the start of the input: an X occurs with no
      line feed before it. */
  predicate LookaheadLower(s: string) { exists i :: 0 <= i < |s| && IsLower(s[i]) && NoLineFeed(s[..i]) }
  predicate LookaheadUpper(s: string) { exists i :: 0 <= i < |s| && IsUpper(s[i]) && NoLineFeed(s[..i]) }
  predicate LookaheadDigit(s: string) { exists i :: 0 <= i < |s| && IsDecimalDigit(s[i]) && NoLineFeed(s[..i]) }

  /** `[RegularExpression(@"^(?=.*[a-z])(?=.*[A-Z])(?=.*\d).{8,}$")]`, read
      literally: the attribute accepts an empty string, and otherwise demands
      a match that spans the whole input, so `.{8,}` must cover all of it:
      eight or more UTF-16 code units, none of them a line feed. */
  predicate PasswordRegex(s: string)
  {
    s == [] || (LookaheadLower(s) && LookaheadUpper(s) && LookaheadDigit(s) && NoLineFeed(s) && Utf16Length(s) >= 8)
  }

  /** The password rule stated plainly: no line feed, at least eight UTF-16
      code units, and at least one ASCII lowercase letter, one ASCII uppercase
      letter and one decimal digit of any script. */
  predicate StrongPassword(s: string)
  {
    && NoLineFeed(s)
    && Utf16Length(s) >= 8
    && (exists i :: 0 <= i < |s| && IsLower(s[i]))
    && (exists i :: 0 <= i < |s| && IsUpper(s[i]))
    && (exists i :: 0 <= i < |s| && IsDecimalDigit(s[i]))
  }

  /** On a non-empty input the literal regular expression and the plain rule
      accept the same passwords: the full-match requirement makes the
      lookaheads' line-feed restriction redundant. */
  lemma PasswordRegexIsStrongPassword(s: string)
    requires s != []
    ensures PasswordRegex(s) <==> StrongPassword(s)
  {
    if StrongPassword(s) {
      var l :| 0 <= l < |s| && IsLower(s[l]);
      var u :| 0 <= u < |s| && IsUpper(s[u]);
      var d :| 0 <= d < |s| && IsDecimalDigit(s[d]);
      assert NoLineFeed(s[..l]) && NoLineFeed(s[..u]) && NoLineFeed(s[..d]);
    }
  }

  datatype RegisterDto = RegisterDto(tgToken: string, email: string, password: string, confirmPassword: string)
  datatype LoginDto = LoginDto(email: string, password: string)
  datatype UpdateEmailDto = UpdateEmailDto(tgToken: string, newEmail: string)
  datatype UpdatePasswordDto = UpdatePasswordDto(tgToken: string, newPassword: string)
  datatype CharacterCreateDto = CharacterCreateDto(charName: string, charClass: string)

  /** `[Required] [StringLength(5, MinimumLength = 5)]`. */
  predicate TokenCodeOk(code: string) { Required(code) && Utf16Length(code) == 5 }

  /** `[Required] [EmailAddress] [MaxLength(50)]`. */
  predicate EmailOk(email: string, isEmail: string -> bool) { Required(email) && isEmail(email) && Utf16Length(email) <= 50 }

  predicate RegisterDtoValid(d: RegisterDto, isEmail: string -> bool)
  {
    && TokenCodeOk(d.tgToken)
    && EmailOk(d.email, isEmail)
    && Required(d.password) && 8 <= Utf16Length(d.password) <= 100 && PasswordRegex(d.password)
    && Required(d.confirmPassword) && d.confirmPassword == d.password
  }

  predicate LoginDtoValid(d: LoginDto, isEmail: string -> bool)
  {
    && EmailOk(d.email, isEmail)
    && Required(d.password) && 8 <= Utf16Length(d.password) <= 100
  }

  predicate UpdateEmailDtoValid(d: UpdateEmailDto, isEmail: string -> bool)
  {
    && TokenCodeOk(d.tgToken)
    && EmailOk(d.newEmail, isEmail)
  }

  predicate UpdatePasswordDtoValid(d: UpdatePasswordDto)
  {
    && TokenCodeOk(d.tgToken)
    && Required(d.newPassword) && Utf16Length(d.newPassword) >= 8 && PasswordRegex(d.newPassword)
  }

  /** `[RegularExpression(@"^[a-zA-Z0-9]{3,50}$")]` with the full-match rule;
      the class `0-9` is the ASCII range, not `\d`. */
  predicate CharNamePattern(s: string)
  {
    s == [] || (3 <= |s| <= 50 && forall i :: 0 <= i < |s| ==> IsLower(s[i]) || IsUpper(s[i]) || IsDigit(s[i]))
  }

  predicate CharacterCreateDtoValid(d: CharacterCreateDto)
  {
    && Required(d.charName) && CharNamePattern(d.charName)
    && Required(d.charClass) && Utf16Length(d.charClass) <= 20
  }

  /** What an accepted registration guarantees: a code of five UTF-16 code
      units, an email that fits the 50-unit column, a password of 8 to 100
      units with a lowercase letter, an uppercase letter and a decimal digit,
      and a confirmation equal to it. */
  lemma RegisterDtoGuarantees(d: RegisterDto, isEmail: string -> bool)
    requires RegisterDtoValid(d, isEmail)
    ensures Utf16Length(d.tgToken) == 5 && 0 < |d.tgToken| <= 5
    ensures isEmail(d.email) && 0 < |d.email| && Utf16Length(d.email) <= 50
    ensures StrongPassword(d.password) && Utf16Length(d.password) <= 100
    ensures d.confirmPassword == d.password
  {
    PasswordRegexIsStrongPassword(d.password);
  }

  /** Credentials accepted at registration are accepted by the login
      validator, and the password by the password-change validator. */
  lemma RegisteredCredentialsPassLater(d: RegisterDto, isEmail: string -> bool, code: string)
    requires RegisterDtoValid(d, isEmail)
    requires TokenCodeOk(code)
    ensures LoginDtoValid(LoginDto(d.email, d.password), isEmail)
    ensures UpdatePasswordDtoValid(UpdatePasswordDto(code, d.password))
  {
  }

  /** The login validator has no character-class rule: a password of eight
      lowercase letters passes it but not the registration rule. */
  lemma LoginHasNoCharacterClassRule(isEmail: string -> bool, email: string)
    requires EmailOk(email, isEmail)
    ensures exists p :: LoginDtoValid(LoginDto(email, p), isEmail) && !PasswordRegex(p)
  {
    var p := "aaaaaaaa";
    Utf16LengthInBmp(p);
    assert !IsUpper(p[0]) && Required(p);
    assert LoginDtoValid(LoginDto(email, p), isEmail);
  }

  function Repeat(c: char, n: nat): (s: string)
    ensures |s| == n && forall i :: 0 <= i < n ==> s[i] == c
  {
    if n == 0 then [] else [c] + Repeat(c, n - 1)
  }

  /** The password-change validator has no upper length bound: for every n it
      accepts a password longer than n, while registration stops at 100. */
  lemma {:induction false} UpdatePasswordHasNoUpperBound(code: string, n: nat)
    requires TokenCodeOk(code)
    ensures exists p :: Utf16Length(p) > n && UpdatePasswordDtoValid(UpdatePasswordDto(code, p))
  {
    var p := "aA1" + Repeat('x', n + 5);
    assert p[0] == 'a' && p[1] == 'A' && p[2] == '1';
    assert NoLineFeed(p[..0]) && NoLineFeed(p[..1]) && NoLineFeed(p[..2]);
    assert IsDecimalDigit(p[2]);
    assert LookaheadLower(p) && LookaheadUpper(p) && LookaheadDigit(p);
    assert NoLineFeed(p);
    assert !IsWhiteSpace(p[0]);
    assert UpdatePasswordDtoValid(UpdatePasswordDto(code, p));
  }

  /** The rules count as .NET does. A digit of another script satisfies `\d`:
      "Abcdefg" followed by ARABIC-INDIC DIGIT THREE is a valid password.
      Lengths are UTF-16 code units: "Aa1" followed by four emoji is seven
      characters but eleven units, so it passes the eight-unit minimum, while
      a code of five emoji is ten units and fails `StringLength(5, 5)`. */
  lemma PasswordRulesCountLikeDotNet()
    ensures var p := "Abcdefg" + [0x0663 as char];
            StrongPassword(p) && PasswordRegex(p)
    ensures var e := 0x1F600 as char;
            var q := "Aa1" + [e, e, e, e];
            |q| == 7 && Utf16Length(q) == 11 && PasswordRegex(q)
    ensures var e := 0x1F600 as char;
            |[e, e, e, e, e]| == 5 && !TokenCodeOk([e, e, e, e, e])
  {
    var p := "Abcdefg" + [0x0663 as char];
    Utf16LengthInBmp(p);
    assert IsLower(p[1]) && IsUpper(p[0]) && IsDecimalDigit(p[7]);
    assert NoLineFeed(p[..0]) && NoLineFeed(p[..1]) && NoLineFeed(p[..7]);
    assert LookaheadLower(p) && LookaheadUpper(p) && LookaheadDigit(p);
    var e := 0x1F600 as char;
    var four := [e, e, e, e];
    assert Utf16Length(four[3..]) == 2;
    assert Utf16Length(four[2..]) == 4 by { assert four[2..][1..] == four[3..]; }
    assert Utf16Length(four[1..]) == 6 by { assert four[1..][1..] == four[2..]; }
    assert Utf16Length(four) == 8;
    var q := "Aa1" + four;
    Utf16LengthInBmp("Aa1");
    Utf16LengthAppend("Aa1", four);
    assert IsLower(q[1]) && IsUpper(q[0]) && IsDecimalDigit(q[2]);
    assert NoLineFeed(q[..0]) && NoLineFeed(q[..1]) && NoLineFeed(q[..2]);
    assert LookaheadLower(q) && LookaheadUpper(q) && LookaheadDigit(q);
    var five := [e, e, e, e, e];
    assert five[1..] == four;
    assert Utf16Length(five) == 10;
  }

  /** An accepted new email fits Account's Email bound. */
  lemma UpdateEmailFitsColumn(d: UpdateEmailDto, isEmail: string -> bool)
    requires UpdateEmailDtoValid(d, isEmail)
    ensures 0 < |d.newEmail| && Utf16Length(d.newEmail) <= 50 && Utf16Length(d.tgToken) == 5
  {
  }

  /** An accepted character name is 3 to 50 ASCII letters or digits, and so
      as many UTF-16 code units as characters; an accepted class is 1 to 20
      code units. */
  lemma CharacterCreateDtoGuarantees(d: CharacterCreateDto)
    requires CharacterCreateDtoValid(d)
    ensures 3 <= |d.charName| <= 50 && Utf16Length(d.charName) == |d.charName|
    ensures forall i :: 0 <= i < |d.charName| ==> IsLower(d.charName[i]) || IsUpper(d.charName[i]) || IsDigit(d.charName[i])
    ensures 0 < |d.charClass| && Utf16Length(d.charClass) <= 20
  {
    Utf16LengthInBmp(d.charName);
  }
}
