/**
 * The OTP checks of `OTPService` in accounts/services.py: verifying a code
 * (which consumes it and, for email verification, marks the user verified),
 * the password-reset variant, and the purpose dispatch of `resend_otp`.
 * Generating and e-mailing codes is not part of this model.
 */
module AccountsServices {
  import opened Wrappers
  import opened Tables
  import opened Units
  import opened AccountsModels
  import opened Database

  type OtpId = nat

  /** The query of `verify_otp`: this user's unused code for this purpose. */
  predicate UnusedMatch(x: Row<Otp>, uid: UserId, code: string, purpose: string) {
    x.val.user == uid && x.val.code == code && x.val.purpose == purpose && !x.val.isUsed
  }

  function FindUnused(otps: Table<Otp>, uid: UserId, code: string, purpose: string): Lookup<Otp> {
    GetWhere(otps, (x: Row<Otp>) => UnusedMatch(x, uid, code, purpose))
  }

  /** Row `i` is the one and only unused code of this user, code and purpose. */
  predicate OnlyMatchAt(otps: Table<Otp>, i: int, uid: UserId, code: string, purpose: string) {
    0 <= i < |otps| && UnusedMatch(otps[i], uid, code, purpose) &&
    forall j :: 0 <= j < |otps| && UnusedMatch(otps[j], uid, code, purpose) ==> j == i
  }

  /** What `verify_otp` returns; `.get` raising MultipleObjectsReturned is not caught. */
  datatype VerifyOutcome = Verified(message: string) | Rejected(message: string) | MultipleFound

  /**
   * The decision of `verify_otp`: success exactly when one unused code
   * matches user, code and purpose and has not expired.
   */
  function VerifyDecision(otps: Table<Otp>, uid: UserId, code: string, purpose: string, now: Instant): (r: VerifyOutcome)
    ensures r == Rejected("Invalid OTP code") <==> forall i :: 0 <= i < |otps| ==> !UnusedMatch(otps[i], uid, code, purpose)
    ensures UniqueIds(otps) && r == Rejected("OTP has expired") ==> exists i :: OnlyMatchAt(otps, i, uid, code, purpose) && !OtpIsValid(otps[i].val, now)
    ensures UniqueIds(otps) && r.Verified? ==> exists i :: OnlyMatchAt(otps, i, uid, code, purpose) && OtpIsValid(otps[i].val, now)
    ensures r.Verified? ==> r.message == if purpose == EmailVerification then "Email verified successfully" else "OTP verified successfully"
    ensures r.MultipleFound? && UniqueIds(otps) ==>
              exists i, j :: 0 <= i < j < |otps| && UnusedMatch(otps[i], uid, code, purpose) && UnusedMatch(otps[j], uid, code, purpose)
    ensures UniqueIds(otps) ==> forall i :: OnlyMatchAt(otps, i, uid, code, purpose) && OtpIsValid(otps[i].val, now) ==> r.Verified?
    ensures UniqueIds(otps) ==> forall i :: OnlyMatchAt(otps, i, uid, code, purpose) && !OtpIsValid(otps[i].val, now) ==>
              r == Rejected("OTP has expired")
    ensures UniqueIds(otps) && (exists i, j :: 0 <= i < j < |otps| && UnusedMatch(otps[i], uid, code, purpose) && UnusedMatch(otps[j], uid, code, purpose)) ==>
              r.MultipleFound?
  {
    match FindUnused(otps, uid, code, purpose)
    case DoesNotExist => Rejected("Invalid OTP code")
    case MultipleObjectsReturned => MultipleFound
    case Found(x) =>
      if !OtpIsValid(x.val, now) then Rejected("OTP has expired")
      else if purpose == EmailVerification then Verified("Email verified successfully")
      else Verified("OTP verified successfully")
  }

  /** `otp.mark_as_used()`. */
  function MarkUsed(otps: Table<Otp>, id: OtpId): Table<Otp>
    requires HasId(otps, id)
  {
    Update(otps, id, Get(otps, id).value.(isUsed := true))
  }

  /** `user.is_verified = True; user.save()`. */
  function MarkVerified(users: Table<User>, uid: UserId): Table<User>
    requires HasId(users, uid)
  {
    Update(users, uid, Get(users, uid).value.(isVerified := true))
  }

  /**
   * A code verifies at most once: after a success marks it used, the same
   * user, code and purpose find no unused code, at any later time.
   */
  lemma {:induction false} VerifiesAtMostOnce(otps: Table<Otp>, uid: UserId, code: string, purpose: string,
                                              now: Instant, later: Instant)
    requires UniqueIds(otps)
    requires VerifyDecision(otps, uid, code, purpose, now).Verified?
    ensures FindUnused(otps, uid, code, purpose).Found?
    ensures VerifyDecision(MarkUsed(otps, FindUnused(otps, uid, code, purpose).row.id), uid, code, purpose, later)
            == Rejected("Invalid OTP code")
  {
    var x := FindUnused(otps, uid, code, purpose).row;
    var k :| 0 <= k < |otps| && otps[k] == x;
    var after := MarkUsed(otps, x.id);
    forall i | 0 <= i < |after| ensures !UnusedMatch(after[i], uid, code, purpose) {
      if UnusedMatch(otps[i], uid, code, purpose) {
        assert otps[i] == x;
      }
    }
  }

  /** A code issued for one purpose never verifies a request for another. */
  lemma PurposeIsolation(otps: Table<Otp>, uid: UserId, code: string, purpose: string, now: Instant)
    requires UniqueIds(otps)
    requires forall i :: 0 <= i < |otps| && otps[i].val.user == uid && otps[i].val.code == code ==>
               otps[i].val.purpose != purpose
    ensures VerifyDecision(otps, uid, code, purpose, now) == Rejected("Invalid OTP code")
  {
  }

  /**
   * `verify_otp`. Success marks the one matching code used and, for email
   * verification only, sets the user's `is_verified`; an expired or unknown
   * code changes nothing.
   */
  method VerifyOtp(db: Database, uid: UserId, code: string, purpose: string, now: Instant) returns (r: VerifyOutcome)
    requires db.Valid() && HasId(db.users, uid)
    modifies db`otps, db`users
    ensures db.Valid()
    ensures r == VerifyDecision(old(db.otps), uid, code, purpose, now)
    ensures r.Verified? ==>
              FindUnused(old(db.otps), uid, code, purpose).Found? &&
              db.otps == MarkUsed(old(db.otps), FindUnused(old(db.otps), uid, code, purpose).row.id) &&
              db.users == if purpose == EmailVerification then MarkVerified(old(db.users), uid) else old(db.users)
    ensures !r.Verified? ==> db.otps == old(db.otps) && db.users == old(db.users)
  {
    r := VerifyDecision(db.otps, uid, code, purpose, now);
    if r.Verified? {
      var x := FindUnused(db.otps, uid, code, purpose).row;
      assert HasId(db.otps, x.id);
      db.otps := MarkUsed(db.otps, x.id);
      if purpose == EmailVerification {
        UpdateKeepsUsernames(db.users, uid, Get(db.users, uid).value.(isVerified := true));
        db.users := MarkVerified(db.users, uid);
      }
    }
  }

  /** `verify_password_reset_otp`: `verify_otp` for the password-reset purpose, which never verifies an email. */
  method VerifyPasswordResetOtp(db: Database, uid: UserId, code: string, now: Instant) returns (r: VerifyOutcome)
    requires db.Valid() && HasId(db.users, uid)
    modifies db`otps, db`users
    ensures db.Valid()
    ensures r == VerifyDecision(old(db.otps), uid, code, PasswordReset, now)
    ensures r.Verified? ==> r.message == "OTP verified successfully"
    ensures r.Verified? ==> FindUnused(old(db.otps), uid, code, PasswordReset).Found?
    ensures db.otps == if r.Verified? then MarkUsed(old(db.otps), FindUnused(old(db.otps), uid, code, PasswordReset).row.id)
                       else old(db.otps)
    ensures db.users == old(db.users)
  {
    r := VerifyOtp(db, uid, code, PasswordReset, now);
  }

  /** Which code `resend_otp` sends. */
  datatype Resend = SendVerification | SendPasswordReset | InvalidPurpose

  /** `resend_otp`: the two known purposes, anything else raises ValueError("Invalid OTP purpose"). */
  function ResendDispatch(purpose: string): (r: Resend)
    ensures r == SendVerification <==> purpose == "email_verification"
    ensures r == SendPasswordReset <==> purpose == "password_reset"
    ensures r == InvalidPurpose <==> purpose !in {"email_verification", "password_reset"}
  {
    if purpose == EmailVerification then SendVerification
    else if purpose == PasswordReset then SendPasswordReset
    else InvalidPurpose
  }
}
