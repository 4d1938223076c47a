/** User documents: the `FullName` and `Age` virtuals, the password hooks and
    methods, and the active-only find filter. Hashing (bcrypt, SHA-256) and
    random bytes are parameters. */
module Users {
  import opened Wrappers
  import opened Calendar

  /** Milliseconds for which a password-reset token stays usable. */
  const ResetWindow := 10 * 60 * 1000

  class User {
    var firstName: string
    var lastName: string
    var dateOfBirth: Option<Day>
    var password: string
    /** Milliseconds since the epoch. */
    var passwordChangeAt: Option<int>
    var passwordResetToken: Option<string>
    var passwordResetExpire: Option<int>
    var isActive: bool

    constructor (firstName: string, lastName: string, dateOfBirth: Option<Day>, password: string)
      ensures this.firstName == firstName && this.lastName == lastName
      ensures this.dateOfBirth == dateOfBirth && this.password == password
      ensures passwordChangeAt.None? && passwordResetToken.None? && passwordResetExpire.None?
      ensures isActive
    {
      this.firstName := firstName;
      this.lastName := lastName;
      this.dateOfBirth := dateOfBirth;
      this.password := password;
      passwordChangeAt := None;
      passwordResetToken := None;
      passwordResetExpire := None;
      isActive := true;
    }

    /** First and last name joined by one space. */
    function FullName(): (s: string)
      reads this
      ensures |s| == |firstName| + 1 + |lastName|
      ensures s[..|firstName|] == firstName && s[|firstName|] == ' ' && s[|firstName| + 1..] == lastName
    {
      firstName + " " + lastName
    }

    /** The difference of calendar years, with no month or day adjustment;
        `None` (null) without a date of birth. */
    function Age(currentYear: int): (age: Option<int>)
      reads this
      ensures age.None? <==> dateOfBirth.None?
      ensures age.Some? ==> dateOfBirth.value.year + age.value == currentYear
    {
      if dateOfBirth.None? then None else Some(currentYear - dateOfBirth.value.year)
    }

    /** `checkAuthAfterPasswordChange`: a token issued at `jwtIat` (seconds)
        predates the last password change when the change's whole second is
        strictly later. */
    function ChangedPasswordAfter(jwtIat: int): (changed: bool)
      reads this
      ensures passwordChangeAt.None? ==> !changed
      ensures passwordChangeAt.Some? ==> (changed <==> passwordChangeAt.value >= 1000 * (jwtIat + 1))
    {
      if passwordChangeAt.Some? then passwordChangeAt.value / 1000 > jwtIat else false
    }

    /** The two pre-save hooks in order: a modified password is hashed, and,
        unless the user is new, its change time is set one second in the past. */
    method PreSave(isNew: bool, passwordModified: bool, now: int, bcrypt: string -> string)
      modifies this`password, this`passwordChangeAt
      ensures password == if passwordModified then bcrypt(old(password)) else old(password)
      ensures passwordChangeAt == if passwordModified && !isNew then Some(now - 1000) else old(passwordChangeAt)
    {
      if passwordModified {
        password := bcrypt(password);
      }
      if passwordModified && !isNew {
        passwordChangeAt := Some(now - 1000);
      }
    }

    /** Stores the digest of a fresh token, opens a ten-minute window, and
        returns the token itself. */
    method SendPasswordResetToken(now: int, randomHex: string, sha256: string -> string) returns (token: string)
      modifies this`passwordResetToken, this`passwordResetExpire
      ensures token == randomHex
      ensures passwordResetToken == Some(sha256(token))
      ensures passwordResetExpire == Some(now + ResetWindow)
    {
      token := randomHex;
      passwordResetToken := Some(sha256(token));
      passwordResetExpire := Some(now + ResetWindow);
    }
  }

  /** With the change stamped one second before `now`, a token issued at any
      instant `t` from that second on is still accepted, and one issued more
      than two seconds before `now` is refused. */
  lemma ChangeStampGrace(u: User, now: int, t: int)
    requires u.passwordChangeAt == Some(now - 1000)
    ensures t >= now - 1000 ==> !u.ChangedPasswordAfter(t / 1000)
    ensures t < now - 2000 ==> u.ChangedPasswordAfter(t / 1000)
  {
    DivBracket(t);
  }

  lemma DivBracket(t: int)
    ensures t - 1000 < 1000 * (t / 1000) <= t
  {
  }

  /** The `/^find/` hook: users marked inactive are not returned. */
  function FindActive(users: seq<User>): (found: seq<User>)
    reads users
    ensures forall i :: 0 <= i < |found| ==> found[i].isActive && found[i] in users
    ensures forall u :: u in users && u.isActive ==> u in found
    ensures |found| <= |users|
  {
    if users == [] then []
    else
      var rest := FindActive(users[1..]);
      if users[0].isActive then [users[0]] + rest else rest
  }
}
