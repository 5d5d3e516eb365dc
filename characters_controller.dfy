/** Controllers/CharactersController.cs: the caller's characters, over a
    Characters table keyed by CharId. The two reads are filters over the table;
    creation adds a row, and update and delete rewrite one in place (a deleted
    character stays in the table with IsDeleted set). The caller's AccountId,
    which the source parses from the NameIdentifier claim, is a parameter. */
module CharactersControllers {
  import opened Common
  import opened Accounts
  import opened Dtos

  /** A row of the Characters table (Models/Character.cs). */
  datatype Character = Character(
    charId: int,
    accountId: int,
    charName: string,
    charClass: string,
    exp: int,
    skills: Option<string>,
    charInfo: Option<string>,
    inventory: Option<string>,
    stash: Option<string>,
    questInfo: Option<string>,
    chatHistory: Option<string>,
    createdAt: Time,
    lastPlayed: Option<Time>,
    isDeleted: bool,
    deleteDate: Option<Time>)

  /** The body of an update request (Models/CharacterUpdateDto.cs). */
  datatype CharacterUpdate = CharacterUpdate(
    charInfo: Option<string>,
    skills: Option<string>,
    inventory: Option<string>,
    stash: Option<string>,
    questInfo: Option<string>,
    chatHistory: Option<string>)

  datatype Outcome =
    | Created(character: Character)
    | NoContent
    | NotFound
    | Unauthorized
    | BadRequest(message: string)
    | ValidationProblem   // the automatic 400 of [ApiController] for an invalid DTO

  const InvalidClassMessage: string := "Invalid character class"

  function LimitMessage(max: int): string
  {
    "Maximum character limit reached (" + IntText(max) + ")"
  }

  /** The classes CreateCharacter accepts; the comparison is ordinal. */
  predicate KnownClass(s: string)
  {
    s == "Warrior" || s == "Mage" || s == "Rogue"
  }

  /** The rows of an account that are not soft-deleted. */
  function LiveIds(chars: map<int, Character>, accountId: int): set<int>
  {
    set k | k in chars && chars[k].accountId == accountId && !chars[k].isDeleted
  }

  /** The column bounds of Models/Character.cs, in UTF-16 code units:
      CharName at most 50, CharClass at most 20. */
  predicate CharacterRowOk(c: Character)
  {
    Utf16Length(c.charName) <= 50 && Utf16Length(c.charClass) <= 20
  }

  /** No account has more live characters than its MaxCharCount. */
  predicate WithinLimits(accounts: map<int, Account>, chars: map<int, Character>)
  {
    forall a :: a in accounts ==> |LiveIds(chars, a)| <= accounts[a].maxCharCount
  }

  /** GetCharacters: exactly the caller's rows that are not deleted. */
  function GetCharacters(chars: map<int, Character>, callerId: int): (r: map<int, Character>)
    ensures r.Keys == LiveIds(chars, callerId)
    ensures forall k :: k in r ==> r[k] == chars[k] && r[k].accountId == callerId && !r[k].isDeleted
  {
    map k | k in LiveIds(chars, callerId) :: chars[k]
  }

  /** GetCharacter: the row, unless it is missing, deleted or another
      account's, which all give NotFound (None). */
  function GetCharacter(chars: map<int, Character>, id: int, callerId: int): (r: Option<Character>)
    ensures r.Some? <==> id in chars && !chars[id].isDeleted && chars[id].accountId == callerId
    ensures r.Some? ==> r.value == chars[id] && r.value.accountId == callerId
  {
    if id in chars && !chars[id].isDeleted && chars[id].accountId == callerId then Some(chars[id]) else None
  }

  /** A character found by id is one of those listed, and the other way round. */
  lemma GetCharacterAgreesWithGetCharacters(chars: map<int, Character>, id: int, callerId: int)
    ensures GetCharacter(chars, id, callerId).Some? <==> id in GetCharacters(chars, callerId)
    ensures id in GetCharacters(chars, callerId) ==>
              GetCharacter(chars, id, callerId) == Some(GetCharacters(chars, callerId)[id])
  {
  }

  /** The row CreateCharacter inserts: the caller's, with Exp 0, created now,
      not deleted and with every content column empty. */
  function NewCharacter(id: int, accountId: int, name: string, charClass: string, now: Time): (c: Character)
    ensures c.charId == id && c.accountId == accountId && c.charName == name && c.charClass == charClass
    ensures c.exp == 0 && c.createdAt == now && !c.isDeleted
    ensures c.lastPlayed.None? && c.deleteDate.None?
    ensures c.skills.None? && c.charInfo.None? && c.inventory.None?
    ensures c.stash.None? && c.questInfo.None? && c.chatHistory.None?
  {
    Character(id, accountId, name, charClass, 0, None, None, None, None, None, None, now, None, false, None)
  }

  /** UpdateCharacter's assignments: the six content columns and LastPlayed. */
  function ApplyUpdate(c: Character, u: CharacterUpdate, now: Time): (r: Character)
    ensures r.(charInfo := c.charInfo, skills := c.skills, inventory := c.inventory, stash := c.stash,
               questInfo := c.questInfo, chatHistory := c.chatHistory, lastPlayed := c.lastPlayed) == c
    ensures r.charInfo == u.charInfo && r.skills == u.skills && r.inventory == u.inventory
    ensures r.stash == u.stash && r.questInfo == u.questInfo && r.chatHistory == u.chatHistory
    ensures r.lastPlayed == Some(now)
  {
    c.(charInfo := u.charInfo, skills := u.skills, inventory := u.inventory, stash := u.stash,
       questInfo := u.questInfo, chatHistory := u.chatHistory, lastPlayed := Some(now))
  }

  /** DeleteCharacter's assignments: IsDeleted and DeleteDate. */
  function SoftDelete(c: Character, now: Time): (r: Character)
    ensures r.isDeleted && r.deleteDate == Some(now)
    ensures r.(isDeleted := c.isDeleted, deleteDate := c.deleteDate) == c
  {
    c.(isDeleted := true, deleteDate := Some(now))
  }

  /** Inserting a live row adds one to its owner's live set and nothing to
      anyone else's. */
  lemma {:induction false} InsertLive(chars: map<int, Character>, c: Character, a: int)
    requires c.charId !in chars && !c.isDeleted
    ensures LiveIds(chars[c.charId := c], a) == if c.accountId == a then LiveIds(chars, a) + {c.charId} else LiveIds(chars, a)
    ensures c.accountId == a ==> |LiveIds(chars[c.charId := c], a)| == |LiveIds(chars, a)| + 1
  {
    var m := chars[c.charId := c];
    forall k
      ensures k in LiveIds(m, a) <==> k in LiveIds(chars, a) || (c.accountId == a && k == c.charId)
    {
      if k == c.charId {
        assert k !in LiveIds(chars, a);
      } else if k in chars {
        assert m[k] == chars[k];
      }
    }
  }

  /** Soft-deleting a row takes it out of every live set. */
  lemma {:induction false} SoftDeleteLive(chars: map<int, Character>, id: int, now: Time, a: int)
    requires id in chars
    ensures LiveIds(chars[id := SoftDelete(chars[id], now)], a) == LiveIds(chars, a) - {id}
  {
    var m := chars[id := SoftDelete(chars[id], now)];
    forall k
      ensures k in LiveIds(m, a) <==> k in LiveIds(chars, a) && k != id
    {
      if k != id && k in chars {
        assert m[k] == chars[k];
      }
    }
  }

  /** An update leaves every live set as it was. */
  lemma {:induction false} UpdateLive(chars: map<int, Character>, id: int, u: CharacterUpdate, now: Time, a: int)
    requires id in chars
    ensures LiveIds(chars[id := ApplyUpdate(chars[id], u, now)], a) == LiveIds(chars, a)
  {
    var m := chars[id := ApplyUpdate(chars[id], u, now)];
    forall k
      ensures k in LiveIds(m, a) <==> k in LiveIds(chars, a)
    {
      if k in chars {
        assert m[k].accountId == chars[k].accountId && m[k].isDeleted == chars[k].isDeleted;
      }
    }
  }

  class CharactersController {
    /** The Accounts table, which this controller only reads. */
    const accounts: map<int, Account>
    var characters: map<int, Character>
    /** The next value of the CharId identity column. */
    var nextCharId: int

    ghost predicate Valid()
      reads this
    {
      && (forall k :: k in characters ==> characters[k].charId == k && k < nextCharId)
      && (forall k :: k in characters ==> characters[k].accountId in accounts)
      && (forall k :: k in characters ==> CharacterRowOk(characters[k]))
      && WithinLimits(accounts, characters)
    }

    constructor (accounts: map<int, Account>, characters: map<int, Character>, nextCharId: int)
      requires forall k :: k in characters ==> characters[k].charId == k && k < nextCharId
      requires forall k :: k in characters ==> characters[k].accountId in accounts && CharacterRowOk(characters[k])
      requires WithinLimits(accounts, characters)
      ensures Valid()
      ensures this.accounts == accounts && this.characters == characters && this.nextCharId == nextCharId
    {
      this.accounts, this.characters, this.nextCharId := accounts, characters, nextCharId;
    }

    /** CreateCharacter. The caller must have an account; the limit counts only
        live rows and is checked before the class. */
    method CreateCharacter(dto: CharacterCreateDto, callerId: int, now: Time) returns (r: Outcome)
      requires Valid()
      modifies this
      ensures Valid()
      ensures !CharacterCreateDtoValid(dto) ==> r == ValidationProblem
      ensures CharacterCreateDtoValid(dto) && callerId !in accounts ==> r == Unauthorized
      ensures CharacterCreateDtoValid(dto) && callerId in accounts
              && |LiveIds(old(characters), callerId)| >= accounts[callerId].maxCharCount ==>
                  r == BadRequest(LimitMessage(accounts[callerId].maxCharCount))
      ensures CharacterCreateDtoValid(dto) && callerId in accounts
              && |LiveIds(old(characters), callerId)| < accounts[callerId].maxCharCount
              && !KnownClass(dto.charClass) ==>
                  r == BadRequest(InvalidClassMessage)
      ensures r.Created? <==>
                CharacterCreateDtoValid(dto) && callerId in accounts && KnownClass(dto.charClass)
                && |LiveIds(old(characters), callerId)| < accounts[callerId].maxCharCount
      ensures !r.Created? ==> characters == old(characters) && nextCharId == old(nextCharId)
      ensures r.Created? ==>
                && r.character == NewCharacter(old(nextCharId), callerId, dto.charName, dto.charClass, now)
                && characters == old(characters)[old(nextCharId) := r.character]
                && nextCharId == old(nextCharId) + 1
                && |LiveIds(characters, callerId)| == |LiveIds(old(characters), callerId)| + 1
                && |LiveIds(characters, callerId)| <= accounts[callerId].maxCharCount
    {
      if !CharacterCreateDtoValid(dto) {
        return ValidationProblem;
      }
      if callerId !in accounts {
        return Unauthorized;
      }
      var max := accounts[callerId].maxCharCount;
      if |LiveIds(characters, callerId)| >= max {
        return BadRequest(LimitMessage(max));
      }
      if !KnownClass(dto.charClass) {
        return BadRequest(InvalidClassMessage);
      }
      var c := NewCharacter(nextCharId, callerId, dto.charName, dto.charClass, now);
      CharacterCreateDtoGuarantees(dto);
      forall a | a in accounts
        ensures |LiveIds(characters[c.charId := c], a)| <= accounts[a].maxCharCount
      {
        InsertLive(characters, c, a);
      }
      InsertLive(characters, c, callerId);
      characters := characters[c.charId := c];
      nextCharId := nextCharId + 1;
      r := Created(c);
    }

    /** UpdateCharacter: a live row of the caller's gets the request's content
        and LastPlayed; name, class, Exp, owner and the rest stay. */
    method UpdateCharacter(id: int, dto: CharacterUpdate, callerId: int, now: Time) returns (r: Outcome)
      requires Valid()
      modifies this
      ensures Valid()
      ensures nextCharId == old(nextCharId)
      ensures r == NoContent <==> GetCharacter(old(characters), id, callerId).Some?
      ensures r != NoContent ==> r == NotFound && characters == old(characters)
      ensures r == NoContent ==> characters == old(characters)[id := ApplyUpdate(old(characters)[id], dto, now)]
      ensures forall a :: LiveIds(characters, a) == LiveIds(old(characters), a)
    {
      if GetCharacter(characters, id, callerId).None? {
        return NotFound;
      }
      forall a
        ensures LiveIds(characters[id := ApplyUpdate(characters[id], dto, now)], a) == LiveIds(characters, a)
      {
        UpdateLive(characters, id, dto, now, a);
      }
      characters := characters[id := ApplyUpdate(characters[id], dto, now)];
      r := NoContent;
    }

    /** DeleteCharacter: the row is looked up by key alone, so a row of the
        caller's that is already deleted is deleted again, with a new
        DeleteDate. */
    method DeleteCharacter(id: int, callerId: int, now: Time) returns (r: Outcome)
      requires Valid()
      modifies this
      ensures Valid()
      ensures nextCharId == old(nextCharId)
      ensures r == NoContent <==> id in old(characters) && old(characters)[id].accountId == callerId
      ensures r != NoContent ==> r == NotFound && characters == old(characters)
      ensures r == NoContent ==>
                && characters == old(characters)[id := SoftDelete(old(characters)[id], now)]
                && characters.Keys == old(characters).Keys
                && GetCharacter(characters, id, callerId).None?
                && LiveIds(characters, callerId) == LiveIds(old(characters), callerId) - {id}
    {
      if id !in characters || characters[id].accountId != callerId {
        return NotFound;
      }
      forall a
        ensures LiveIds(characters[id := SoftDelete(characters[id], now)], a) == LiveIds(characters, a) - {id}
      {
        SoftDeleteLive(characters, id, now, a);
      }
      characters := characters[id := SoftDelete(characters[id], now)];
      r := NoContent;
    }
  }

  /** A deleted character frees its slot: at the limit, deleting one of the
      caller's live characters lets the next creation through the limit check. */
  lemma DeleteFreesSlot(chars: map<int, Character>, id: int, now: Time, max: int)
    requires id in chars && !chars[id].isDeleted
    requires |LiveIds(chars, chars[id].accountId)| == max
    ensures |LiveIds(chars[id := SoftDelete(chars[id], now)], chars[id].accountId)| < max
  {
    SoftDeleteLive(chars, id, now, chars[id].accountId);
  }
}
