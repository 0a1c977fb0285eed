/** The username rules of `NewUser` in `internal/model/user.go`. Password hashing (bcrypt) is
    not part of this model: `NewUser` receives the hashing outcome as an input. */
module UserModel {
  import opened Common
  import Text

  datatype User = User(userId: Uuid, username: string, email: string, password: string,
                       createdAt: Time, updatedAt: Time)

  datatype RegisterInput = RegisterInput(username: string, email: string, password: string)

  /** The Unicode classes `unicode.IsUpper`, `unicode.IsLetter` and `unicode.IsDigit`, whose
      tables are not part of this model. White space is `Text.IsSpace`. */
  datatype CharClass = CharClass(isUpper: char -> bool, isLetter: char -> bool, isDigit: char -> bool)

  const UppercaseError := "username cannot contain uppercase"
  const SpaceError := "username cannot contain spaces"
  const CharsetError := "username can only contain letters, digits, and underscores"

  /** The verdict on one character: uppercase is tested first, then white space, then the
      allowed set (letter, digit or '_'). */
  function CharError(c: char, cls: CharClass): (e: Option<string>)
    ensures cls.isUpper(c) ==> e == Some(UppercaseError)
    ensures !cls.isUpper(c) && Text.IsSpace(c) ==> e == Some(SpaceError)
    ensures !cls.isUpper(c) && !Text.IsSpace(c) && !(cls.isLetter(c) || cls.isDigit(c) || c == '_') ==>
              e == Some(CharsetError)
    ensures e.None? <==> !cls.isUpper(c) && !Text.IsSpace(c) && (cls.isLetter(c) || cls.isDigit(c) || c == '_')
  {
    if cls.isUpper(c) then Some(UppercaseError)
    else if Text.IsSpace(c) then Some(SpaceError)
    else if !(cls.isLetter(c) || cls.isDigit(c) || c == '_') then Some(CharsetError)
    else None
  }

  /** The character loop of `NewUser`: the verdict on the first character that has one. */
  function UsernameError(s: string, cls: CharClass): (e: Option<string>)
    ensures e.Some? ==> e.value in {UppercaseError, SpaceError, CharsetError}
    decreases |s|
  {
    if s == [] then None
    else if CharError(s[0], cls).Some? then CharError(s[0], cls)
    else UsernameError(s[1..], cls)
  }

  predicate AcceptedUsername(s: string, cls: CharClass)
  {
    forall i :: 0 <= i < |s| ==> CharError(s[i], cls).None?
  }

  /** A username passes the loop exactly when every one of its characters is accepted; in
      particular the empty username passes. */
  lemma {:induction false} UsernameErrorNoneIff(s: string, cls: CharClass)
    ensures UsernameError(s, cls).None? <==> AcceptedUsername(s, cls)
    decreases |s|
  {
    if s != [] {
      UsernameErrorNoneIff(s[1..], cls);
      if AcceptedUsername(s[1..], cls) && CharError(s[0], cls).None? {
        forall i | 0 <= i < |s| ensures CharError(s[i], cls).None? {
          if i > 0 { assert s[i] == s[1..][i - 1]; }
        }
      }
      if AcceptedUsername(s, cls) {
        forall i | 0 <= i < |s| - 1 ensures CharError(s[1..][i], cls).None? {
          assert s[1..][i] == s[i + 1];
        }
      }
    }
  }

  /** Characters are checked left to right: the first rejected character decides the error. */
  lemma {:induction false} FirstOffenderDecides(s: string, cls: CharClass, i: nat)
    requires i < |s| && CharError(s[i], cls).Some?
    requires forall j :: 0 <= j < i ==> CharError(s[j], cls).None?
    ensures UsernameError(s, cls) == CharError(s[i], cls)
    decreases i
  {
    if i > 0 {
      assert CharError(s[0], cls).None?;
      forall j | 0 <= j < i - 1 ensures CharError(s[1..][j], cls).None? {
        assert s[1..][j] == s[j + 1];
      }
      FirstOffenderDecides(s[1..], cls, i - 1);
    }
  }

  /** `NewUser`. `hashed` is the outcome of `bcrypt.GenerateFromPassword`, `freshId` what
      `uuid.New()` returns and `createdAt`, `updatedAt` two readings of `time.Now()`. The
      username rules are checked before hashing; on success username and email are the input's. */
  function NewUser(input: RegisterInput, cls: CharClass, hashed: Result<string>, freshId: Uuid,
                   createdAt: Time, updatedAt: Time): (r: Result<User>)
    ensures UsernameError(input.username, cls).Some? ==> r == Fail(UsernameError(input.username, cls).value)
    ensures UsernameError(input.username, cls).None? && hashed.Fail? ==> r == Fail(hashed.err)
    ensures r.Ok? <==> UsernameError(input.username, cls).None? && hashed.Ok?
    ensures r.Ok? ==> && r.value.username == input.username && r.value.email == input.email
                      && r.value.password == hashed.value && r.value.userId == freshId
  {
    var nameErr := UsernameError(input.username, cls);
    if nameErr.Some? then Fail(nameErr.value)
    else if hashed.Fail? then Fail(hashed.err)
    else Ok(User(freshId, input.username, input.email, hashed.value, createdAt, updatedAt))
  }

  /** Any username with an uppercase character is rejected, with the uppercase error when that
      character is the first offender; a username with white space is never accepted. */
  lemma UppercaseOrSpaceRejected(s: string, cls: CharClass, i: nat)
    requires i < |s| && (cls.isUpper(s[i]) || Text.IsSpace(s[i]))
    ensures UsernameError(s, cls).Some?
    ensures cls.isUpper(s[i]) && (forall j :: 0 <= j < i ==> CharError(s[j], cls).None?) ==>
              UsernameError(s, cls) == Some(UppercaseError)
  {
    UsernameErrorNoneIff(s, cls);
    if forall j :: 0 <= j < i ==> CharError(s[j], cls).None? {
      FirstOffenderDecides(s, cls, i);
    }
  }
}
