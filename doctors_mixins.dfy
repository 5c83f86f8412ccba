/** The admin test of doctors/mixins.py. */
module DoctorsMixins {
  import opened AccountsModels
  import opened DoctorsServices

  /** `is_admin_user`: signed in, and a superuser or of admin type. */
  function IsAdminUser(user: Requester): (b: bool)
    ensures !user.IsAuthenticated() ==> !b
    ensures user.IsAuthenticated() && user.user.isSuperuser ==> b
    ensures user.IsAuthenticated() && user.user.userType == AdminType ==> b
    ensures b ==> user.IsAuthenticated() && (user.user.isSuperuser || user.user.userType == AdminType)
  {
    user.IsAuthenticated() && (user.user.isSuperuser || user.user.userType == AdminType)
  }

  /** The mixin and the service agree on every user. */
  lemma IsAdminUserAgreesWithService(user: Requester)
    ensures IsAdminUser(user) == CanUserManageDoctors(user)
  {
  }
}
