/** `EmailVerificationRequiredMixin.dispatch` of accounts/mixins.py. */
module AccountsMixins {
  import opened AccountsModels

  datatype Gate = RedirectToLogin | RedirectToOtpVerification | Proceed

  /** Sign-in is checked first, then verification. */
  function Dispatch(request: Requester): (g: Gate)
    ensures g == RedirectToLogin <==> !request.IsAuthenticated()
    ensures g == RedirectToOtpVerification <==> request.IsAuthenticated() && !request.user.isVerified
    ensures g == Proceed <==> request.IsAuthenticated() && request.user.isVerified
  {
    if !request.IsAuthenticated() then RedirectToLogin
    else if !request.user.isVerified then RedirectToOtpVerification
    else Proceed
  }

  /** An anonymous request goes to login whatever verification state any user has. */
  lemma AnonymousAlwaysToLogin(request: Requester)
    requires request.Anonymous?
    ensures Dispatch(request) == RedirectToLogin
  {
  }
}
