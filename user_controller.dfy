/** Controllers/UserController.cs: registration (a user and a wallet), profile
    update, deletion, and login. The two regular expressions are modelled
    exactly over ASCII, including the way `$` accepts one final line feed. */
module UserController {
  import opened Common
  import opened Text
  import opened Models
  import opened Data

  /** UserRegistrationDTO: the body of POST api/users and PUT api/users/{id}. */
  datatype UserDto = UserDto(userName: string, userPassword: string, name: string, surname: string, userEmail: string)

  /** What a successful login answers. */
  datatype LoginReply = LoginReply(userId: int, name: string, roleId: int)

  // ---------------------------------------------------------------------------
  // The email rule: ^[^@\s]+@singular\.com$, ignoring case

  const Domain: string := "@singular.com"
  const AdminAddress: string := "admin" + Domain

  /** The email is a nonempty local part without '@' and white space followed
      by "@singular.com" in any case, optionally followed by one line feed. */
  predicate IsValidEmail(email: string) {
    var t := DropFinalNewline(email);
    && |t| > |Domain|
    && EqualsIgnoreCase(t[|t| - |Domain|..], Domain)
    && forall k :: 0 <= k < |t| - |Domain| ==> t[k] != '@' && !IsSpace(t[k])
  }

  /** An accepted email is not blank, so a registered user can log in with it. */
  lemma ValidEmailIsNotBlank(email: string)
    requires IsValidEmail(email)
    ensures !IsBlank(email)
  {
    assert !IsSpace(email[0]);
  }

  /** The role the email selects: 1 (admin) when it contains
      "admin@singular.com" in any case, otherwise 2 (user). */
  function RoleFor(email: string): (r: int)
    ensures r == 1 || r == 2
    ensures r == 1 <==> exists k: nat :: k <= |email| && OccursAt(email, AdminAddress, k)
  {
    if ContainsIgnoreCase(email, AdminAddress) then 1 else 2
  }

  /** In an accepted email the only '@' is the one that starts the domain. */
  lemma OnlyAtIsDomainAt(email: string)
    requires IsValidEmail(email)
    ensures forall i :: 0 <= i < |email| && email[i] == '@' ==> i == |DropFinalNewline(email)| - |Domain|
  {
    var t := DropFinalNewline(email);
    var n := |t| - |Domain|;
    forall i | 0 <= i < |email| && i != n ensures email[i] != '@' {
      if i < n {
        assert t[i] == email[i];
      } else if i < |t| {
        assert t[i] == email[i];
        assert SameIgnoringCase(t[n..][i - n], Domain[i - n]);
      }
    }
  }

  /** For an accepted email, the admin role is given exactly when the local
      part ends, ignoring case, in "admin". */
  lemma {:induction false} AdminRoleIffLocalPartEndsWithAdmin(email: string)
    requires IsValidEmail(email)
    ensures var t := DropFinalNewline(email);
            var n := |t| - |Domain|;
            RoleFor(email) == 1 <==> n >= 5 && EqualsIgnoreCase(t[n - 5..n], "admin")
  {
    var t := DropFinalNewline(email);
    var n := |t| - |Domain|;
    if n >= 5 && EqualsIgnoreCase(t[n - 5..n], "admin") {
      AdminLocalPartGivesAdminRole(email);
    }
    if RoleFor(email) == 1 {
      AdminRoleNeedsAdminLocalPart(email);
    }
  }

  /** A local part ending in "admin" puts "admin@singular.com" in the email. */
  lemma AdminLocalPartGivesAdminRole(email: string)
    requires IsValidEmail(email)
    requires var t := DropFinalNewline(email);
             var n := |t| - |Domain|;
             n >= 5 && EqualsIgnoreCase(t[n - 5..n], "admin")
    ensures RoleFor(email) == 1
  {
    var t := DropFinalNewline(email);
    var n := |t| - |Domain|;
    var k: nat := n - 5;
    forall j | 0 <= j < |AdminAddress| ensures SameIgnoringCase(email[k + j], AdminAddress[j]) {
      assert email[k + j] == t[k + j];
      if j < 5 {
        assert t[k + j] == t[n - 5..n][j];
        assert AdminAddress[j] == "admin"[j];
        assert SameIgnoringCase(t[n - 5..n][j], "admin"[j]);
      } else {
        assert t[k + j] == t[n..][j - 5];
        assert AdminAddress[j] == Domain[j - 5];
        assert SameIgnoringCase(t[n..][j - 5], Domain[j - 5]);
      }
    }
    assert OccursAt(email, AdminAddress, k);
  }

  /** "admin@singular.com" can occur in an accepted email only just before
      its end, its '@' being the domain's. */
  lemma AdminRoleNeedsAdminLocalPart(email: string)
    requires IsValidEmail(email) && RoleFor(email) == 1
    ensures var t := DropFinalNewline(email);
            var n := |t| - |Domain|;
            n >= 5 && EqualsIgnoreCase(t[n - 5..n], "admin")
  {
    var t := DropFinalNewline(email);
    var n := |t| - |Domain|;
    var k: nat :| k <= |email| && OccursAt(email, AdminAddress, k);
    assert AdminAddress[5] == '@';
    assert SameIgnoringCase(email[k + 5], AdminAddress[5]);
    UpperIsAtOnlyForAt(email[k + 5]);
    OnlyAtIsDomainAt(email);
    assert k + 5 == n;
    forall j | 0 <= j < 5 ensures SameIgnoringCase(t[n - 5..n][j], "admin"[j]) {
      assert t[n - 5..n][j] == email[k + j];
      assert AdminAddress[j] == "admin"[j];
      assert SameIgnoringCase(email[k + j], AdminAddress[j]);
    }
  }

  // ---------------------------------------------------------------------------
  // The password rule: ^(?=.*[a-z])(?=.*[A-Z])(?=.*\d)(?=.*[\W_]).{8,}$

  predicate HasLower(s: string) { exists i :: 0 <= i < |s| && IsLowerLetter(s[i]) }
  predicate HasUpper(s: string) { exists i :: 0 <= i < |s| && IsUpperLetter(s[i]) }
  predicate HasDigit(s: string) { exists i :: 0 <= i < |s| && IsDigit(s[i]) }
  /** A character of the class `[\W_]`: anything but a letter or a digit. */
  predicate HasSymbol(s: string) { exists i :: 0 <= i < |s| && !(IsWordChar(s[i]) && s[i] != '_') }

  /** The password regular expression matches. `.` stops at a line feed, so
      the password is one line of at least eight characters, optionally
      followed by one line feed (`$`); the letters and the digit are on that
      line, and a symbol is on it too unless the final line feed, itself a
      `\W`, serves as the symbol. */
  predicate PasswordMatches(pw: string) {
    var line := DropFinalNewline(pw);
    && (forall i :: 0 <= i < |line| ==> line[i] != '\n')
    && |line| >= 8
    && HasLower(line) && HasUpper(line) && HasDigit(line)
    && (HasSymbol(line) || |line| < |pw|)
  }

  /** The password check of `CreateUser`: not blank and matching. */
  predicate IsValidPassword(pw: string) {
    !IsBlank(pw) && PasswordMatches(pw)
  }

  /** An accepted password has at least eight characters, among them a
      lowercase letter, an uppercase letter, a digit and a symbol. */
  lemma AcceptedPasswordIsStrong(pw: string)
    requires IsValidPassword(pw)
    ensures |pw| >= 8 && HasLower(pw) && HasUpper(pw) && HasDigit(pw) && HasSymbol(pw)
  {
    var line := DropFinalNewline(pw);
    assert forall i :: 0 <= i < |line| ==> pw[i] == line[i];
    if !HasSymbol(line) {
      assert pw[|pw| - 1] == '\n';
    }
  }

  /** Conversely, a password without line feeds that has eight characters, a
      lowercase letter, an uppercase letter, a digit and a symbol is accepted. */
  lemma StrongPasswordIsAccepted(pw: string)
    requires forall i :: 0 <= i < |pw| ==> pw[i] != '\n'
    requires |pw| >= 8 && HasLower(pw) && HasUpper(pw) && HasDigit(pw) && HasSymbol(pw)
    ensures IsValidPassword(pw)
  {
    var i :| 0 <= i < |pw| && IsLowerLetter(pw[i]);
    assert !IsSpace(pw[i]);
  }

  /** The blank test adds nothing to the regular expression: every matching
      password has a letter, which is not white space. */
  lemma MatchingPasswordIsNotBlank(pw: string)
    requires PasswordMatches(pw)
    ensures IsValidPassword(pw)
  {
    var line := DropFinalNewline(pw);
    var i :| 0 <= i < |line| && IsLowerLetter(line[i]);
    assert pw[i] == line[i];
  }

  // ---------------------------------------------------------------------------
  // POST api/users

  /** The user `CreateUser` stores: active, with the role the email selects,
      the given user name, name, surname and email, and `hash(password)` in
      the password column. */
  function NewUser(dto: UserDto, hash: string -> string): (r: User)
    ensures r.isActive && r.roleId == RoleFor(dto.userEmail) && r.userPassword == hash(dto.userPassword)
    ensures r.userEmail == dto.userEmail && r.name == dto.name && r.surname == dto.surname
    ensures r.userName == dto.userName
  {
    User(0, RoleFor(dto.userEmail), true, dto.userName, hash(dto.userPassword), dto.name, dto.surname, dto.userEmail)
  }

  /** POST api/users. The email is checked first, then the password; a
      rejection stores nothing. Otherwise the user is saved (first save) and
      then a wallet for that user with balance 0 (second save). `hash` stands
      for BCrypt's HashPassword. */
  method CreateUser(db: DataContext, dto: UserDto, hash: string -> string)
    returns (status: Status, userId: int, walletId: int)
    requires db.Valid()
    modifies db
    ensures db.Valid()
    ensures status in {Ok, BadRequest}
    ensures status == BadRequest <==> !IsValidEmail(dto.userEmail) || !IsValidPassword(dto.userPassword)
    ensures status == BadRequest ==> db.Contents() == old(db.Contents())
    ensures status == Ok ==>
              && userId == old(db.nextUserId)
              && walletId == old(db.nextWalletId)
              && db.Contents() == old(db.Contents()).(
                   users := old(db.users) + [NewUser(dto, hash).(userId := userId)],
                   wallets := old(db.wallets) + [Wallet(walletId, userId, 0, 0.0)],
                   nextUserId := userId + 1,
                   nextWalletId := walletId + 1)
  {
    userId, walletId := 0, 0;
    if !IsValidEmail(dto.userEmail) {
      return BadRequest, userId, walletId;
    }
    if IsBlank(dto.userPassword) || !PasswordMatches(dto.userPassword) {
      return BadRequest, userId, walletId;
    }
    userId := db.AddUser(NewUser(dto, hash));
    walletId := db.AddWallet(Wallet(0, userId, 0, 0.0));
    status := Ok;
  }

  // ---------------------------------------------------------------------------
  // PUT api/users/{id}

  /** The user after an accepted update: the new names and email, the role
      the new email selects, and a new hash only when a password was given. */
  function UpdatedUser(u: User, dto: UserDto, hash: string -> string): (r: User)
    ensures r.userId == u.userId && r.isActive == u.isActive
    ensures r.roleId == RoleFor(dto.userEmail)
    ensures r.userName == dto.userName && r.name == dto.name && r.surname == dto.surname
    ensures r.userEmail == dto.userEmail
    ensures IsBlank(dto.userPassword) ==> r.userPassword == u.userPassword
    ensures !IsBlank(dto.userPassword) ==> r.userPassword == hash(dto.userPassword)
  {
    u.(roleId := RoleFor(dto.userEmail),
       userName := dto.userName,
       name := dto.name,
       surname := dto.surname,
       userEmail := dto.userEmail,
       userPassword := if IsBlank(dto.userPassword) then u.userPassword else hash(dto.userPassword))
  }

  /** PUT api/users/{id}. NotFound first; then a bad email, or a password that
      is given but does not match, answers BadRequest with nothing saved. */
  method UpdateUser(db: DataContext, id: int, dto: UserDto, hash: string -> string) returns (status: Status)
    requires db.Valid()
    modifies db
    ensures db.Valid()
    ensures status in {Ok, BadRequest, NotFound}
    ensures status == NotFound <==> FindUser(old(db.users), id).None?
    ensures status == BadRequest <==>
              FindUser(old(db.users), id).Some?
              && (!IsValidEmail(dto.userEmail) || (!IsBlank(dto.userPassword) && !PasswordMatches(dto.userPassword)))
    ensures status != Ok ==> db.Contents() == old(db.Contents())
    ensures status == Ok ==>
              var k := FindUser(old(db.users), id).value;
              db.Contents() == old(db.Contents()).(users := old(db.users)[k := UpdatedUser(old(db.users)[k], dto, hash)])
  {
    var found := FindUser(db.users, id);
    if found.None? {
      return NotFound;
    }
    if !IsValidEmail(dto.userEmail) {
      return BadRequest;
    }
    var k := found.value;
    var user := db.users[k].(roleId := RoleFor(dto.userEmail), userName := dto.userName, name := dto.name,
                             surname := dto.surname, userEmail := dto.userEmail);
    if !IsBlank(dto.userPassword) {
      if !PasswordMatches(dto.userPassword) {
        return BadRequest;
      }
      user := user.(userPassword := hash(dto.userPassword));
    }
    db.SaveUser(k, user);
    status := Ok;
  }

  // ---------------------------------------------------------------------------
  // DELETE api/users/{id}

  /** Removes that user and no other row; the user's wallet and orders stay. */
  method DeleteUser(db: DataContext, id: int) returns (status: Status)
    requires db.Valid()
    modifies db
    ensures db.Valid()
    ensures status == NotFound <==> FindUser(old(db.users), id).None?
    ensures status in {Ok, NotFound}
    ensures status == NotFound ==> db.Contents() == old(db.Contents())
    ensures status == Ok ==>
              && db.Contents() == old(db.Contents()).(users := RemoveAt(old(db.users), FindUser(old(db.users), id).value))
              && forall u :: u in db.users ==> u.userId != id
  {
    var found := FindUser(db.users, id);
    if found.None? {
      return NotFound;
    }
    db.RemoveUser(found.value);
    status := Ok;
  }

  // ---------------------------------------------------------------------------
  // POST api/users/login

  /** POST api/users/login. `modelStateValid` is the framework's verdict on
      the body's annotations; `verify` stands for BCrypt's Verify. */
  function Login(users: seq<User>, email: string, password: string, modelStateValid: bool,
                 verify: (string, string) -> bool): (r: Result<LoginReply>)
    ensures r == Failure(BadRequest) <==> IsBlank(email) || IsBlank(password) || !modelStateValid
    ensures r == Failure(Unauthorized) <==>
              !IsBlank(email) && !IsBlank(password) && modelStateValid
              && (FindUserByEmail(users, email).None?
                  || !verify(password, users[FindUserByEmail(users, email).value].userPassword))
    ensures r.Failure? ==> r.status in {BadRequest, Unauthorized}
    ensures r.Success? ==>
              && FindUserByEmail(users, email).Some?
              && var u := users[FindUserByEmail(users, email).value];
              && u.userEmail == email
              && verify(password, u.userPassword)
              && r.value == LoginReply(u.userId, u.name, u.roleId)
  {
    if IsBlank(email) || IsBlank(password) then Failure(BadRequest)
    else if !modelStateValid then Failure(BadRequest)
    else match FindUserByEmail(users, email)
      case None => Failure(Unauthorized)
      case Some(k) =>
        if !verify(password, users[k].userPassword) then Failure(Unauthorized)
        else Success(LoginReply(users[k].userId, users[k].name, users[k].roleId))
  }

  /** Registration followed by login: when no earlier user has the email and
      the hash verifies its own password, logging in with the registered
      email and password answers the new user's id, name and role. */
  lemma {:induction false} LoginAfterRegistration(users: seq<User>, dto: UserDto, hash: string -> string,
                                                  verify: (string, string) -> bool, userId: int)
    requires IsValidEmail(dto.userEmail) && IsValidPassword(dto.userPassword)
    requires FindUserByEmail(users, dto.userEmail).None?
    requires verify(dto.userPassword, hash(dto.userPassword))
    ensures Login(users + [NewUser(dto, hash).(userId := userId)], dto.userEmail, dto.userPassword, true, verify)
         == Success(LoginReply(userId, dto.name, RoleFor(dto.userEmail)))
  {
    ValidEmailIsNotBlank(dto.userEmail);
    var all := users + [NewUser(dto, hash).(userId := userId)];
    assert all[|users|].userEmail == dto.userEmail;
    assert forall j :: 0 <= j < |users| ==> all[j] == users[j];
  }
}
