/**
 * The `User` record of accounts/models.py (with the `is_verified` flag the
 * services and forms read), the signed-in or anonymous requester, and the
 * `OTP` record the OTP service queries.
 */
module AccountsModels {
  import opened Wrappers
  import opened Units

  type UserId = nat

  datatype UserType = AdminType | DoctorType | PatientType

  /** The code stored in the `user_type` column. */
  function UserTypeCode(t: UserType): (code: string)
    ensures ParseUserType(code) == Some(t)
  {
    match t
    case AdminType => "admin"
    case DoctorType => "doctor"
    case PatientType => "patient"
  }

  /** The choice a stored code stands for; only the three codes are choices. */
  function ParseUserType(code: string): Option<UserType> {
    if code == "admin" then Some(AdminType)
    else if code == "doctor" then Some(DoctorType)
    else if code == "patient" then Some(PatientType)
    else None
  }

  datatype User = User(
    username: string,
    email: string,
    firstName: string,
    lastName: string,
    phoneNumber: string,
    userType: UserType,
    walletBalance: Money,
    isVerified: bool,
    isSuperuser: bool)

  /**
   * `User.objects.create_user(username=..., email=...)` with every other field
   * at its default: a patient, an empty phone number, a zero balance, not yet
   * verified and not a superuser.
   */
  function DefaultUser(username: string, email: string): (u: User)
    ensures u.username == username && u.email == email
    ensures u.userType == PatientType && UserTypeCode(u.userType) == "patient"
    ensures u.walletBalance == 0 && u.phoneNumber == ""
    ensures !u.isVerified && !u.isSuperuser
  {
    User(username, email, "", "", "", PatientType, 0, false, false)
  }

  /** `request.user`: either anonymous or a signed-in user with its primary key. */
  datatype Requester = Anonymous | SignedIn(id: UserId, user: User) {
    predicate IsAuthenticated() { SignedIn? }
  }

  /** The two purposes the OTP service issues codes for. */
  const EmailVerification: string := "email_verification"
  const PasswordReset: string := "password_reset"

  /** A one-time code issued to a user for a purpose. */
  datatype Otp = Otp(user: UserId, code: string, purpose: string, isUsed: bool, expiresAt: Instant)

  /** `OTP.is_valid()`: the code has not yet expired at `now`. */
  predicate OtpIsValid(o: Otp, now: Instant) { now < o.expiresAt }
}
