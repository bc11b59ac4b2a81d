/** The two password forms: creating a user and changing the current user's
    password. Each runs its checks in a fixed order and reports only the first
    that fails. The password hash and its validation belong to a library
    outside this model and are passed in as functions. */
module UserPages {
  import opened Users

  // ---------------------------------------------------------------------------
  // New user

  /** The notifications the new-user form can raise. */
  datatype NewUserNotice = UsernameMissing | PasswordTooShort | PasswordsDiffer

  /** What Create does: raise one notification, or hand a user with the
      hashed password to the database. */
  datatype NewUserResult = Rejected(notice: NewUserNotice) | Submitted(username: string, passwordHash: string)

  /** Create on the new-user form: a username is required, then both
      passwords must be at least 4 characters long, then they must match. */
  function CreateClick(username: string, password: string, confirm: string, hash: string -> string): (r: NewUserResult)
  {
    if |username| > 0 then
      if |password| >= 4 && |confirm| >= 4 then
        if password == confirm then Submitted(username, hash(password))
        else Rejected(PasswordsDiffer)
      else Rejected(PasswordTooShort)
    else Rejected(UsernameMissing)
  }

  /** Each outcome happens exactly when its check is the first to fail, and
      a user reaches the database only when all pass, carrying the hash of
      the password and not the password itself. */
  lemma CreateClickSpec(username: string, password: string, confirm: string, hash: string -> string)
    ensures var r := CreateClick(username, password, confirm, hash);
      (r == Rejected(UsernameMissing) <==> username == "") &&
      (r == Rejected(PasswordTooShort) <==> username != "" && (|password| < 4 || |confirm| < 4)) &&
      (r == Rejected(PasswordsDiffer) <==> username != "" && |password| >= 4 && |confirm| >= 4 && password != confirm) &&
      (r.Submitted? <==> username != "" && |password| >= 4 && password == confirm) &&
      (r.Submitted? ==> r.username == username && r.passwordHash == hash(password))
  {
  }

  /** The user the form builds for the database. */
  method NewUser(username: string, password: string, confirm: string, hash: string -> string) returns (user: User?)
    ensures CreateClick(username, password, confirm, hash).Submitted? <==> user != null
    ensures user != null ==> fresh(user) && user.username == username && user.password == hash(password)
    ensures user != null ==> user.lenses == [] && user.vehicles == []
  {
    user := null;
    match CreateClick(username, password, confirm, hash)
    case Submitted(name, passwordHash) =>
      user := new User(name, passwordHash);
    case Rejected(_) =>
  }

  // ---------------------------------------------------------------------------
  // Change password

  /** The notifications of the change-password form; Changed is the success
      notification. */
  datatype PasswordNotice = InvalidCurrent | NewTooShort | NewDiffer | SameAsCurrent | Changed

  /** The order of the checks: the current password must validate against the
      stored hash, then new and confirm must be at least 4 characters long,
      then equal, then different from the current one. */
  function PasswordRule(stored: string, current: string, newPassword: string, confirm: string,
                        validate: (string, string) -> bool): (r: PasswordNotice)
  {
    if !validate(stored, current) then InvalidCurrent
    else if |newPassword| < 4 || |confirm| < 4 then NewTooShort
    else if newPassword != confirm then NewDiffer
    else if current == newPassword then SameAsCurrent
    else Changed
  }

  /** Each notice is given exactly when its check is the first to fail, and
      success needs every check to pass. */
  lemma PasswordRuleSpec(stored: string, current: string, newPassword: string, confirm: string,
                         validate: (string, string) -> bool)
    ensures var r := PasswordRule(stored, current, newPassword, confirm, validate);
      (r == InvalidCurrent <==> !validate(stored, current)) &&
      (r == NewTooShort <==> validate(stored, current) && (|newPassword| < 4 || |confirm| < 4)) &&
      (r == NewDiffer <==> validate(stored, current) && |newPassword| >= 4 && |confirm| >= 4 && newPassword != confirm) &&
      (r == SameAsCurrent <==> validate(stored, current) && |newPassword| >= 4 && newPassword == confirm && current == newPassword) &&
      (r == Changed <==> validate(stored, current) && |newPassword| >= 4 && newPassword == confirm && current != newPassword)
  {
  }

  /** Submit on the change-password form. On success the current user's
      stored password becomes the hash of the new password; every failing
      check leaves the user as it was. The save to the database is not
      awaited and its answer is not read. */
  method Submit(user: User, current: string, newPassword: string, confirm: string,
                validate: (string, string) -> bool, hash: string -> string) returns (notice: PasswordNotice)
    modifies user
    ensures notice == PasswordRule(old(user.password), current, newPassword, confirm, validate)
    ensures notice == Changed ==> user.password == hash(newPassword)
    ensures notice != Changed ==> user.password == old(user.password)
    ensures user.userID == old(user.userID) && user.username == old(user.username)
    ensures user.lenses == old(user.lenses) && user.vehicles == old(user.vehicles)
  {
    if validate(user.password, current) {
      if |newPassword| >= 4 && |confirm| >= 4 {
        if newPassword == confirm {
          if current != newPassword {
            user.password := hash(newPassword);
            notice := Changed;
          } else {
            notice := SameAsCurrent;
          }
        } else {
          notice := NewDiffer;
        }
      } else {
        notice := NewTooShort;
      }
    } else {
      notice := InvalidCurrent;
    }
  }

  /** Submit is enabled while all three password boxes hold something. */
  predicate SubmitEnabled(current: string, newPassword: string, confirm: string)
  {
    |current| > 0 && |newPassword| > 0 && |confirm| > 0
  }

  /** The enable rule is weaker than the checks: a change that succeeds had
      non-empty new and confirm boxes, but enabled boxes still reach the
      length check (a one-character password is enabled and rejected). */
  lemma SubmitEnabledSpec(stored: string, current: string, newPassword: string, confirm: string,
                          validate: (string, string) -> bool)
    ensures PasswordRule(stored, current, newPassword, confirm, validate) == Changed ==> |newPassword| > 0 && |confirm| > 0
    ensures validate(stored, current) && SubmitEnabled(current, "a", "a") ==>
      PasswordRule(stored, current, "a", "a", validate) == NewTooShort
  {
  }
}
