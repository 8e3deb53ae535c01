/**
 * Models/User.cs: an account.  E-mail addresses are kept trimmed and lower-cased, the
 * password is only ever held as its hash and never handed out by `getPassword`.
 */
module UserModel {
  import opened Wrappers
  import opened Text

  const UserRole: string := "USER"
  const AdminRole: string := "ADMIN"

  /** The role names are upper-case words, which `setRole` keeps as they are. */
  lemma UserRoleTrimmed()
    ensures Trim(UserRole) == UserRole && Trim(AdminRole) == AdminRole
  {
    TrimUpperWord(UserRole);
    TrimUpperWord(AdminRole);
  }

  class User {
    var userId: int
    var fullName: Option<string>
    var email: Option<string>
    var passwordHash: Option<string>
    var phone: Option<string>
    var role: string
    var createdAt: Option<int>
    var rememberToken: Option<string>
    var tokenExpiry: Option<int>

    /** `new User()`: no data, and role "USER". */
    constructor ()
      ensures userId == 0 && fullName.None? && email.None? && passwordHash.None? && phone.None?
      ensures role == UserRole
      ensures createdAt.None? && rememberToken.None? && tokenExpiry.None?
    {
      userId := 0;
      fullName, email, passwordHash, phone := None, None, None, None;
      role := UserRole;
      createdAt, rememberToken, tokenExpiry := None, None, None;
    }

    method SetFullName(fullName: Option<string>)
      modifies this`fullName
      ensures this.fullName == TrimOrNull(fullName)
    {
      this.fullName := TrimOrNull(fullName);
    }

    /** `setEmail`: trimmed and lower-cased, null kept. */
    method SetEmail(email: Option<string>)
      modifies this`email
      ensures this.email == NormalizeEmail(email)
    {
      this.email := NormalizeEmail(email);
    }

    method SetPhone(phone: Option<string>)
      modifies this`phone
      ensures this.phone == TrimOrNull(phone)
    {
      this.phone := TrimOrNull(phone);
    }

    /** `setRole`: trimmed with its case kept, "USER" for null. */
    method SetRole(role: Option<string>)
      modifies this`role
      ensures role.None? ==> this.role == UserRole
      ensures role.Some? ==> this.role == Trim(role.value)
    {
      this.role := if role.None? then UserRole else Trim(role.value);
    }

    /** `setPassword`: stores the (already hashed) value as given. */
    method SetPassword(password: Option<string>)
      modifies this`passwordHash
      ensures GetHashedPassword() == password
    {
      this.passwordHash := password;
    }

    /** `getPassword`: never reveals anything. */
    function GetPassword(): (r: Option<string>)
      reads this
      ensures r.None?
    {
      None
    }

    /** `getHashedPassword`: what `setPassword` stored. */
    function GetHashedPassword(): Option<string>
      reads this
    {
      passwordHash
    }

    /** `Equals`: same id and same e-mail. */
    predicate Equals(o: User?)
      reads this, o
    {
      this == o || (o != null && userId == o.userId && email == o.email)
    }
  }

  /** The e-mail form that `setEmail` stores and every lookup compares against. */
  function NormalizeEmail(email: Option<string>): (r: Option<string>)
    ensures r.None? <==> email.None?
    ensures r.Some? ==> |r.value| <= |email.value|
  {
    if email.None? then None else Some(ToLower(Trim(email.value)))
  }

  /** A stored address has no surrounding white space and no upper-case ASCII letter. */
  lemma NormalizeEmailNormal(email: Option<string>)
    ensures var r := NormalizeEmail(email);
      r.Some? ==> Trim(r.value) == r.value && ToLower(r.value) == r.value
  {
    if email.Some? {
      var t := Trim(email.value);
      TrimToLower(t);
      TrimIdempotent(email.value);
      ToLowerIdempotent(t);
    }
  }

  /** Normalising a normalised address changes nothing. */
  lemma NormalizeEmailIdempotent(email: Option<string>)
    ensures NormalizeEmail(NormalizeEmail(email)) == NormalizeEmail(email)
  {
    NormalizeEmailNormal(email);
  }

  /** Two addresses that differ only in case and surrounding white space normalise alike. */
  lemma NormalizeEmailIgnoresCase(a: string, b: string)
    requires ToLower(Trim(a)) == ToLower(Trim(b))
    ensures NormalizeEmail(Some(a)) == NormalizeEmail(Some(b))
  {
  }

  /** Equality of users needs both id and e-mail, and is symmetric. */
  lemma EqualsByIdAndEmail(a: User, b: User)
    ensures a.Equals(b) <==> a.userId == b.userId && a.email == b.email
    ensures a.Equals(b) <==> b.Equals(a)
  {
  }
}
