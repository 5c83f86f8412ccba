/**
 * The validators and the registration save of accounts/forms.py: login by
 * e-mail, registration (unique e-mail, phone digits, password strength,
 * confirmation), the six-digit OTP code, and the password-reset forms.
 * Empty strings stand for missing or blank values, which the validators let
 * through unchanged.
 */
module AccountsForms {
  import opened Wrappers
  import opened Tables
  import opened Text
  import opened AccountsModels
  import opened Database

  /** Row `i` holds the one and only user whose e-mail is `email`. */
  predicate OnlyUserWithEmail(users: Table<User>, i: int, email: string) {
    0 <= i < |users| && users[i].val.email == email &&
    forall j :: 0 <= j < |users| && users[j].val.email == email ==> j == i
  }

  /**
   * `CustomLoginForm.clean_username`: a value containing "@" that is some
   * user's e-mail becomes that user's username; anything else is kept. Two
   * users sharing that e-mail make `.get` raise.
   */
  function CleanLoginUsername(users: Table<User>, username: string): (r: Raising<string>)
    ensures r.Raised? ==> ContainsChar(username, '@')
    ensures UniqueIds(users) && r.Raised? ==>
              exists i, j :: 0 <= i < j < |users| && users[i].val.email == username && users[j].val.email == username
    ensures UniqueIds(users) && r.Returned? && r.value != username ==>
              exists i :: 0 <= i < |users| && users[i].val.email == username && r.value == users[i].val.username
    ensures !ContainsChar(username, '@') ==> r == Returned(username)
    ensures (forall i :: 0 <= i < |users| ==> users[i].val.email != username) ==> r == Returned(username)
    ensures UniqueIds(users) && ContainsChar(username, '@') ==>
              forall i :: OnlyUserWithEmail(users, i, username) ==> r == Returned(users[i].val.username)
    ensures UniqueIds(users) && ContainsChar(username, '@') &&
            (exists i, j :: 0 <= i < j < |users| && users[i].val.email == username && users[j].val.email == username) ==>
              r.Raised?
  {
    if username != [] && ContainsChar(username, '@') then
      match GetWhere(users, (x: Row<User>) => x.val.email == username)
      case Found(x) => Returned(x.val.username)
      case DoesNotExist => Returned(username)
      case MultipleObjectsReturned => Raised("MultipleObjectsReturned")
    else Returned(username)
  }

  /** `UserRegistrationForm.clean_email`: an e-mail already in use is refused. */
  function CleanRegistrationEmail(users: Table<User>, email: string): (r: Cleaned<string>)
    ensures r.Invalid? <==> email != "" && exists i :: 0 <= i < |users| && users[i].val.email == email
    ensures r.Invalid? ==> r.message == "A user with this email already exists."
    ensures r.Valid? ==> r.value == email
  {
    if email != "" && Exists(users, (x: Row<User>) => x.val.email == email)
    then Invalid("A user with this email already exists.")
    else Valid(email)
  }

  /** The phone rule shared by registration and the doctor form: at least ten digits, anything else ignored. */
  function CleanPhoneNumber(phone: string): (r: Cleaned<string>)
    ensures r.Invalid? <==> phone != "" && |DigitsOnly(phone)| < 10
    ensures r.Invalid? ==> r.message == "Phone number must contain at least 10 digits."
    ensures r.Valid? ==> r.value == phone
  {
    if phone != "" && |DigitsOnly(phone)| < 10
    then Invalid("Phone number must contain at least 10 digits.")
    else Valid(phone)
  }

  /** Separators such as spaces, dashes and brackets never change whether a phone number passes. */
  lemma {:induction false} PhoneIgnoresNonDigits(phone: string, c: char)
    requires phone != "" && !IsDigit(c)
    ensures CleanPhoneNumber(phone + [c]).Valid? <==> CleanPhoneNumber(phone).Valid?
  {
    DigitsOnlyAppend(phone, c);
  }

  const CommonPasswords: seq<string> := ["password", "password123", "123456", "12345678", "qwerty", "abc123"]

  const TooShort := "Password must be at least 8 characters long."
  const NoLetter := "Password must contain at least one letter."
  const NoNumber := "Password must contain at least one number."
  const TooCommon := "This password is too common. Please choose a stronger password."

  /** `clean_password1`: length, then a letter, then a digit, then the common list, case-insensitively. */
  function CleanPassword1(password: string): (r: Cleaned<string>)
    ensures r == Invalid(TooShort) <==> password != "" && |password| < 8
    ensures r == Invalid(NoLetter) <==> |password| >= 8 && !HasLetter(password)
    ensures r == Invalid(NoNumber) <==> |password| >= 8 && HasLetter(password) && !HasDigit(password)
    ensures r == Invalid(TooCommon) <==> |password| >= 8 && HasLetter(password) && HasDigit(password) && Lower(password) in CommonPasswords
    ensures r.Valid? ==> r.value == password
    ensures r.Valid? && password != "" ==>
              |password| >= 8 && HasLetter(password) && HasDigit(password) && Lower(password) !in CommonPasswords
  {
    if password == "" then Valid(password)
    else if |password| < 8 then Invalid(TooShort)
    else if !HasLetter(password) then Invalid(NoLetter)
    else if !HasDigit(password) then Invalid(NoNumber)
    else if Lower(password) in CommonPasswords then Invalid(TooCommon)
    else Valid(password)
  }

  /** Lower-casing keeps letters letters and digits digits. */
  lemma LowerKeepsClasses(s: string)
    ensures HasLetter(Lower(s)) <==> HasLetter(s)
    ensures HasDigit(Lower(s)) <==> HasDigit(s)
  {
    if HasLetter(Lower(s)) {
      var i :| 0 <= i < |s| && IsLetter(Lower(s)[i]);
      assert IsLetter(s[i]);
    }
    if HasLetter(s) {
      var i :| 0 <= i < |s| && IsLetter(s[i]);
      assert IsLetter(Lower(s)[i]);
    }
    if HasDigit(Lower(s)) {
      var i :| 0 <= i < |s| && IsDigit(Lower(s)[i]);
      assert IsDigit(s[i]);
    }
    if HasDigit(s) {
      var i :| 0 <= i < |s| && IsDigit(s[i]);
      assert IsDigit(Lower(s)[i]);
    }
  }

  /**
   * Of the six common passwords, the earlier checks already refuse five, so
   * the common-list check refuses exactly the spellings of "password123".
   */
  lemma TooCommonOnlyPassword123(password: string)
    ensures CleanPassword1(password) == Invalid(TooCommon) <==> Lower(password) == "password123"
  {
    LowerKeepsClasses(password);
    var l := Lower(password);
    if l == "password123" {
      assert IsLetter(l[0]) && IsDigit(l[8]);
    }
    if l == "password" {
      assert !HasDigit(l) by {
        forall i | 0 <= i < |l| ensures !IsDigit(l[i]) {
        }
      }
    }
    if l == "12345678" {
      assert !HasLetter(l) by {
        forall i | 0 <= i < |l| ensures !IsLetter(l[i]) {
        }
      }
    }
  }

  /** The documented examples: all digits fails on the letter rule, "password123" on the common list. */
  lemma PasswordExamples()
    ensures CleanPassword1("12345678") == Invalid(NoLetter)
    ensures CleanPassword1("password123") == Invalid(TooCommon)
  {
    TooCommonOnlyPassword123("password123");
    var s := "12345678";
    assert !HasLetter(s) by {
      forall i | 0 <= i < |s| ensures !IsLetter(s[i]) {
      }
    }
  }

  /** `UserRegistrationForm.clean`: two given passwords must agree. */
  function CleanRegistration(password1: string, password2: string): (r: Cleaned<(string, string)>)
    ensures r.Invalid? <==> password1 != "" && password2 != "" && password1 != password2
    ensures r.Invalid? ==> r.message == "Passwords do not match."
    ensures r.Valid? ==> r.value == (password1, password2)
  {
    if password1 != "" && password2 != "" && password1 != password2
    then Invalid("Passwords do not match.")
    else Valid((password1, password2))
  }

  /**
   * `BaseUserManager.normalize_email`: when the stripped address contains
   * "@", the part after its last "@" is lowercased and the part before it
   * kept; an address without "@" is returned as given.
   */
  function NormalizeEmail(email: string): (r: string)
    ensures !ContainsChar(Strip(email), '@') ==> r == email
    ensures ContainsChar(Strip(email), '@') ==>
              exists k :: 0 <= k < |Strip(email)| && Strip(email)[k] == '@' &&
                !ContainsChar(Strip(email)[k + 1..], '@') &&
                r == Strip(email)[..k + 1] + Lower(Strip(email)[k + 1..])
  {
    var s := Strip(email);
    var k := LastIndexOf(s, '@');
    if k < 0 then email
    else s[..k + 1] + Lower(s[k + 1..])
  }

  /**
   * The user `UserRegistrationForm.save` creates through `create_user`: the
   * e-mail as entered is the username, the normalized e-mail is the e-mail,
   * and the user is a patient.
   */
  function RegisteredUser(email: string, firstName: string, lastName: string, phone: string): (u: User)
    ensures u.username == email && u.email == NormalizeEmail(email)
    ensures u.firstName == firstName && u.lastName == lastName && u.phoneNumber == phone
    ensures u.userType == PatientType && u.walletBalance == 0 && !u.isVerified && !u.isSuperuser
  {
    DefaultUser(email, NormalizeEmail(email)).(firstName := firstName, lastName := lastName, phoneNumber := phone)
  }

  /** `UserRegistrationForm.save`: inserts the user; a taken username violates the unique column. */
  method RegisterUser(db: Database, email: string, firstName: string, lastName: string, phone: string)
    returns (r: Result<UserId, SaveError>)
    requires db.Valid()
    modifies db`users
    ensures db.Valid()
    ensures r.Err? <==> exists i :: 0 <= i < |old(db.users)| && old(db.users)[i].val.username == email
    ensures r.Err? ==> r.error == IntegrityError && db.users == old(db.users)
    ensures r.Ok? ==> r.value == NextId(old(db.users)) &&
                      db.users == Insert(old(db.users), RegisteredUser(email, firstName, lastName, phone))
  {
    if Exists(db.users, (x: Row<User>) => x.val.username == email) {
      r := Err(IntegrityError);
    } else {
      r := Ok(NextId(db.users));
      db.users := Insert(db.users, RegisteredUser(email, firstName, lastName, phone));
    }
  }

  /**
   * Registering "ann@Example.COM" stores that username but the e-mail
   * "ann@example.com", so registering the same address again passes
   * `clean_email`, which compares e-mails exactly, and then fails on the
   * unique username when it is saved.
   */
  lemma MixedCaseDomainReachesTheSave(users: Table<User>)
    requires UniqueIds(users)
    requires forall i :: 0 <= i < |users| ==> users[i].val.email != "ann@Example.COM"
    ensures NormalizeEmail("ann@Example.COM") == "ann@example.com"
    ensures var after := Insert(users, RegisteredUser("ann@Example.COM", "Ann", "Lee", ""));
            CleanRegistrationEmail(after, "ann@Example.COM") == Valid("ann@Example.COM") &&
            exists i :: 0 <= i < |after| && after[i].val.username == "ann@Example.COM"
  {
    var e := "ann@Example.COM";
    NormalizeExample();
    var after := Insert(users, RegisteredUser(e, "Ann", "Lee", ""));
    assert after[|users|].val.username == e;
    forall i | 0 <= i < |after| ensures after[i].val.email != e {
      if i < |users| { assert after[i] == users[i]; }
    }
  }

  /** The example address normalizes to a different string. */
  lemma NormalizeExample()
    ensures NormalizeEmail("ann@Example.COM") == "ann@example.com"
    ensures "ann@example.com" != "ann@Example.COM"
  {
    var e := "ann@Example.COM";
    var n := "ann@example.com";
    assert n[4] != e[4];
    StripOfStripped(e);
    assert e[3] == '@';
    assert LastIndexOf(e, '@') == 3;
    assert e[..4] == "ann@";
    assert e[4..] == "Example.COM";
    assert Lower("Example.COM") == "example.com";
    assert "ann@" + "example.com" == n;
  }

  /** `clean_otp_code` (the same in both OTP forms): digits only first, then exactly six. */
  function CleanOtpCode(code: string): (r: Cleaned<string>)
    ensures r == Invalid("OTP code must contain only numbers") <==> !IsAllDigits(code)
    ensures r == Invalid("OTP code must be exactly 6 digits") <==> IsAllDigits(code) && |code| != 6
    ensures r.Valid? <==> IsAllDigits(code) && |code| == 6
    ensures r.Valid? ==> r.value == code
  {
    if !IsAllDigits(code) then Invalid("OTP code must contain only numbers")
    else if |code| != 6 then Invalid("OTP code must be exactly 6 digits")
    else Valid(code)
  }

  const NoAccount := "No account found with this email address."
  const NotVerified := "This email address is not verified. Please verify your email first."

  /** The user with e-mail `email`, as `User.objects.get(email=email)` finds it. */
  function UserByEmail(users: Table<User>, email: string): Lookup<User> {
    GetWhere(users, (x: Row<User>) => x.val.email == email)
  }

  /**
   * `PasswordResetRequestForm.clean_email`: the e-mail must belong to a
   * user, and that user must be verified. Two users sharing it make `.get` raise.
   */
  function CleanResetRequestEmail(users: Table<User>, email: string): (r: Raising<Cleaned<string>>)
    ensures r == Returned(Invalid(NoAccount)) <==> email != "" && forall i :: 0 <= i < |users| ==> users[i].val.email != email
    ensures r == Returned(Invalid(NotVerified)) ==> UserByEmail(users, email).Found? && !UserByEmail(users, email).row.val.isVerified
    ensures r == Returned(Valid(email)) && email != "" ==> UserByEmail(users, email).Found? && UserByEmail(users, email).row.val.isVerified
    ensures r.Raised? ==> UserByEmail(users, email).MultipleObjectsReturned?
    ensures r.Returned? && r.value.Valid? ==> r.value.value == email
    ensures UniqueIds(users) && email != "" ==>
              forall i :: OnlyUserWithEmail(users, i, email) ==>
                r == Returned(if users[i].val.isVerified then Valid(email) else Invalid(NotVerified))
    ensures UniqueIds(users) && email != "" &&
            (exists i, j :: 0 <= i < j < |users| && users[i].val.email == email && users[j].val.email == email) ==>
              r.Raised?
  {
    if email == "" then Returned(Valid(email))
    else
      var found := UserByEmail(users, email);
      if found.DoesNotExist? then Returned(Invalid(NoAccount))
      else if found.MultipleObjectsReturned? then Raised("MultipleObjectsReturned")
      else if !found.row.val.isVerified then Returned(Invalid(NotVerified))
      else Returned(Valid(email))
  }

  /** The user a request is refused for as unverified exists, has that e-mail, and is the only one with it. */
  lemma NotVerifiedMeansTheOneUser(users: Table<User>, email: string)
    requires UniqueIds(users)
    requires CleanResetRequestEmail(users, email) == Returned(Invalid(NotVerified))
    ensures exists i :: 0 <= i < |users| && users[i].val.email == email && !users[i].val.isVerified &&
              forall j :: 0 <= j < |users| && users[j].val.email == email ==> j == i
  {
    var x := UserByEmail(users, email).row;
    var i :| 0 <= i < |users| && users[i] == x;
    forall j | 0 <= j < |users| && users[j].val.email == email ensures j == i {
      assert users[j] == x;
    }
  }

  /** `PasswordResetForm.clean`: with both passwords given, agreement is checked before length. */
  function CleanPasswordReset(password1: string, password2: string): (r: Cleaned<(string, string)>)
    ensures r == Invalid("Passwords do not match.") <==> password1 != "" && password2 != "" && password1 != password2
    ensures r == Invalid(TooShort) <==> password1 != "" && password1 == password2 && |password1| < 8
    ensures r.Valid? <==> password1 == "" || password2 == "" || (password1 == password2 && |password1| >= 8)
  {
    if password1 != "" && password2 != "" then
      if password1 != password2 then Invalid("Passwords do not match.")
      else if |password1| < 8 then Invalid(TooShort)
      else Valid((password1, password2))
    else Valid((password1, password2))
  }
}
