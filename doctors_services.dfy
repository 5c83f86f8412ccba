/**
 * `DoctorService` of doctors/services.py: who may manage doctors, the
 * permission guard in front of doctor creation, and `update_doctor`, which
 * rewrites the doctor's user account and then assigns the doctor fields one
 * by one.
 */
module DoctorsServices {
  import opened Wrappers
  import opened Tables
  import opened Units
  import opened AccountsModels
  import opened DoctorsModels
  import opened Database

  const MustBeAuthenticated := "User must be authenticated."
  const OnlyAdmins := "Only superusers or users with admin type can create doctor accounts."

  /** `validate_admin_permissions`: None when it returns, otherwise the ValidationError it raises. */
  function ValidateAdminPermissions(user: Requester): (r: Option<string>)
    ensures r == Some(MustBeAuthenticated) <==> !user.IsAuthenticated()
    ensures r == Some(OnlyAdmins) <==> user.IsAuthenticated() && !user.user.isSuperuser && user.user.userType != AdminType
    ensures r.None? <==> user.IsAuthenticated() && (user.user.isSuperuser || user.user.userType == AdminType)
  {
    if !user.IsAuthenticated() then Some(MustBeAuthenticated)
    else if !(user.user.isSuperuser || user.user.userType == AdminType) then Some(OnlyAdmins)
    else None
  }

  /**
   * `can_user_manage_doctors`: true when the validation does not raise, that
   * is, for signed-in superusers and admin-type users and nobody else.
   */
  function CanUserManageDoctors(user: Requester): (b: bool)
    ensures b <==> user.SignedIn? && (user.user.isSuperuser || user.user.userType == AdminType)
  {
    ValidateAdminPermissions(user).None?
  }

  /** What `create_doctor` does before anything is written. */
  datatype CreateGuard = CreationDenied(message: string) | DelegateToModel

  /**
   * `create_doctor`: the permission check runs first, so a caller who may not
   * manage doctors is refused before `Doctor.create_doctor` is reached.
   */
  function CreateDoctorGuard(createdBy: Requester): (r: CreateGuard)
    ensures r.DelegateToModel? <==> CanUserManageDoctors(createdBy)
    ensures r.CreationDenied? ==> Some(r.message) == ValidateAdminPermissions(createdBy)
  {
    match ValidateAdminPermissions(createdBy)
    case Some(message) => CreationDenied(message)
    case None => DelegateToModel
  }

  /** The `user_data` dictionary. */
  datatype UserData = UserData(firstName: string, lastName: string, email: string, username: string,
                               phoneNumber: string, walletBalance: Money)

  /** The user account after `update_doctor`'s assignments: six fields copied, the type forced to doctor. */
  function UpdatedUser(u: User, data: UserData): (r: User)
    ensures r.firstName == data.firstName && r.lastName == data.lastName && r.email == data.email
    ensures r.username == data.username && r.phoneNumber == data.phoneNumber && r.walletBalance == data.walletBalance
    ensures r.userType == DoctorType
    ensures r.isVerified == u.isVerified && r.isSuperuser == u.isSuperuser
  {
    u.(firstName := data.firstName, lastName := data.lastName, email := data.email, username := data.username,
       phoneNumber := data.phoneNumber, walletBalance := data.walletBalance, userType := DoctorType)
  }

  /** One entry of the `doctor_data` dictionary: a field name and its value. */
  datatype DoctorField =
    | SpecialtyField(specialty: SpecialtyId)
    | LicenseNumberField(licenseNumber: string)
    | ExperienceYearsField(years: int)
    | BioField(bio: string)
    | ConsultationFeeField(fee: Money)
    | IsActiveField(active: bool)

  /** `setattr(doctor, field, value)`. */
  function Assign(d: Doctor, f: DoctorField): Doctor {
    match f
    case SpecialtyField(s) => d.(specialty := s)
    case LicenseNumberField(l) => d.(licenseNumber := l)
    case ExperienceYearsField(y) => d.(experienceYears := y)
    case BioField(b) => d.(bio := b)
    case ConsultationFeeField(fee) => d.(consultationFee := fee)
    case IsActiveField(a) => d.(isActive := a)
  }

  /** The doctor after assigning the entries in order. */
  function AssignAll(d: Doctor, fields: seq<DoctorField>): Doctor
    decreases |fields|
  {
    if |fields| == 0 then d else Assign(AssignAll(d, fields[..|fields| - 1]), fields[|fields| - 1])
  }

  /** Which attribute an entry names. */
  function Kind(f: DoctorField): nat {
    match f
    case SpecialtyField(_) => 0
    case LicenseNumberField(_) => 1
    case ExperienceYearsField(_) => 2
    case BioField(_) => 3
    case ConsultationFeeField(_) => 4
    case IsActiveField(_) => 5
  }

  /** The entry that names the same attribute as `f`, carrying the value `d` holds there. */
  function Current(d: Doctor, f: DoctorField): (r: DoctorField)
    ensures Kind(r) == Kind(f)
  {
    match f
    case SpecialtyField(_) => SpecialtyField(d.specialty)
    case LicenseNumberField(_) => LicenseNumberField(d.licenseNumber)
    case ExperienceYearsField(_) => ExperienceYearsField(d.experienceYears)
    case BioField(_) => BioField(d.bio)
    case ConsultationFeeField(_) => ConsultationFeeField(d.consultationFee)
    case IsActiveField(_) => IsActiveField(d.isActive)
  }

  /** One assignment sets the attribute it names and no other. */
  lemma AssignSetsOneAttribute(d: Doctor, g: DoctorField, f: DoctorField)
    ensures Current(Assign(d, g), f) == if Kind(g) == Kind(f) then g else Current(d, f)
  {
  }

  /** Entry `k` is the last one naming its attribute. */
  predicate LastOfKind(fields: seq<DoctorField>, k: int) {
    0 <= k < |fields| && forall m :: k < m < |fields| ==> Kind(fields[m]) != Kind(fields[k])
  }

  /**
   * Assigning the entries in order leaves each named attribute with the value
   * of the last entry naming it, every attribute no entry names as it was,
   * and the doctor's user, rating summary and creator untouched.
   */
  lemma {:induction false} AssignAllLastValueWins(d: Doctor, fields: seq<DoctorField>)
    ensures var r := AssignAll(d, fields);
            forall k :: LastOfKind(fields, k) ==> Current(r, fields[k]) == fields[k]
    ensures var r := AssignAll(d, fields);
            forall f :: (forall k :: 0 <= k < |fields| ==> Kind(fields[k]) != Kind(f)) ==> Current(r, f) == Current(d, f)
    ensures var r := AssignAll(d, fields);
            r.user == d.user && r.averageRating == d.averageRating &&
            r.totalReviews == d.totalReviews && r.createdBy == d.createdBy
    decreases |fields|
  {
    if |fields| > 0 {
      var init := fields[..|fields| - 1];
      var g := fields[|fields| - 1];
      AssignAllLastValueWins(d, init);
      var before := AssignAll(d, init);
      var r := AssignAll(d, fields);
      assert r == Assign(before, g);
      forall k | LastOfKind(fields, k) ensures Current(r, fields[k]) == fields[k] {
        AssignSetsOneAttribute(before, g, fields[k]);
        if k < |fields| - 1 {
          assert fields[k] == init[k];
          assert LastOfKind(init, k);
        }
      }
      forall f | forall k :: 0 <= k < |fields| ==> Kind(fields[k]) != Kind(f)
        ensures Current(r, f) == Current(d, f)
      {
        assert Kind(g) != Kind(f);
        AssignSetsOneAttribute(before, g, f);
        assert forall k :: 0 <= k < |init| ==> init[k] == fields[k];
      }
    }
  }

  /** The six entries the doctor form passes take exactly the form's values. */
  lemma FormDataAssignsAll(d: Doctor, specialty: SpecialtyId, licenseNumber: string, years: int, bio: string,
                           fee: Money, active: bool)
    ensures AssignAll(d, [SpecialtyField(specialty), LicenseNumberField(licenseNumber), ExperienceYearsField(years),
                          BioField(bio), ConsultationFeeField(fee), IsActiveField(active)])
            == d.(specialty := specialty, licenseNumber := licenseNumber, experienceYears := years, bio := bio,
                  consultationFee := fee, isActive := active)
  {
    var fs := [SpecialtyField(specialty), LicenseNumberField(licenseNumber), ExperienceYearsField(years),
               BioField(bio), ConsultationFeeField(fee), IsActiveField(active)];
    assert fs[..1][..0] == [] && fs[..2][..1] == fs[..1] && fs[..3][..2] == fs[..2];
    assert fs[..4][..3] == fs[..3] && fs[..5][..4] == fs[..4] && fs[..5] == fs[..5];
    assert AssignAll(d, fs[..1]) == d.(specialty := specialty);
    assert AssignAll(d, fs[..2]) == d.(specialty := specialty, licenseNumber := licenseNumber);
    assert AssignAll(d, fs[..3]) == d.(specialty := specialty, licenseNumber := licenseNumber, experienceYears := years);
    assert AssignAll(d, fs[..4]) == d.(specialty := specialty, licenseNumber := licenseNumber, experienceYears := years, bio := bio);
    assert AssignAll(d, fs[..5]) == d.(specialty := specialty, licenseNumber := licenseNumber, experienceYears := years, bio := bio,
                                       consultationFee := fee);
  }

  /** The `for field, value in doctor_data.items()` loop. */
  method AssignFields(d: Doctor, fields: seq<DoctorField>) returns (r: Doctor)
    ensures r == AssignAll(d, fields)
  {
    r := d;
    var i := 0;
    while i < |fields|
      invariant 0 <= i <= |fields|
      invariant r == AssignAll(d, fields[..i])
    {
      assert fields[..i + 1][..i] == fields[..i];
      r := Assign(r, fields[i]);
      i := i + 1;
    }
    assert fields[..|fields|] == fields;
  }

  /** Where `update_doctor` stopped: both rows written, or the database refused one of the two saves. */
  datatype UpdateOutcome = Updated | UserSaveRefused | DoctorSaveRefused

  /**
   * `update_doctor`. The user row is saved first; a username taken by another
   * user makes that save fail. The doctor row is saved second; a license
   * number taken by another doctor or an unknown specialty makes it fail,
   * after the user row has already been written.
   */
  method UpdateDoctor(db: Database, doctorId: DoctorId, data: UserData, fields: seq<DoctorField>)
    returns (o: UpdateOutcome)
    requires db.Valid() && HasId(db.doctors, doctorId)
    requires HasId(db.users, Get(db.doctors, doctorId).value.user)
    modifies db`users, db`doctors
    ensures db.Valid()
    ensures var d := Get(old(db.doctors), doctorId).value;
            var d' := AssignAll(d, fields);
            var uid := d.user;
            var userClash := exists i :: 0 <= i < |old(db.users)| && old(db.users)[i].id != uid &&
                                          old(db.users)[i].val.username == data.username;
            var doctorClash := (exists i :: 0 <= i < |old(db.doctors)| && old(db.doctors)[i].id != doctorId &&
                                              old(db.doctors)[i].val.licenseNumber == d'.licenseNumber) ||
                               !HasId(db.specialties, d'.specialty);
            && (o == UserSaveRefused <==> userClash)
            && (o == DoctorSaveRefused <==> !userClash && doctorClash)
            && (o == UserSaveRefused ==> db.users == old(db.users))
            && (o != UserSaveRefused ==> db.users == Update(old(db.users), uid, UpdatedUser(Get(old(db.users), uid).value, data)))
            && (o == Updated ==> db.doctors == Update(old(db.doctors), doctorId, d'))
            && (o != Updated ==> db.doctors == old(db.doctors))
  {
    var d := Get(db.doctors, doctorId).value;
    var uid := d.user;
    var u := UpdatedUser(Get(db.users, uid).value, data);
    if Exists(db.users, (x: Row<User>) => x.id != uid && x.val.username == data.username) {
      return UserSaveRefused;
    }
    UpdateUserKeepsUsernames(db.users, uid, u);
    db.users := Update(db.users, uid, u);
    var d' := AssignFields(d, fields);
    if Exists(db.doctors, (x: Row<Doctor>) => x.id != doctorId && x.val.licenseNumber == d'.licenseNumber)
       || !HasId(db.specialties, d'.specialty) {
      return DoctorSaveRefused;
    }
    AssignAllLastValueWins(d, fields);
    UpdateDoctorKeepsConstraints(db.doctors, db.specialties, doctorId, d');
    db.doctors := Update(db.doctors, doctorId, d');
    o := Updated;
  }

  /** A user row may take a username no other user has. */
  lemma UpdateUserKeepsUsernames(users: Table<User>, uid: UserId, u: User)
    requires UniqueIds(users) && UniqueUsernames(users)
    requires forall i :: 0 <= i < |users| && users[i].id != uid ==> users[i].val.username != u.username
    ensures UniqueIds(Update(users, uid, u)) && UniqueUsernames(Update(users, uid, u))
  {
  }

  /** A doctor row may take a free license number and an existing specialty, keeping its user. */
  lemma UpdateDoctorKeepsConstraints(doctors: Table<Doctor>, specialties: Table<Specialty>, id: DoctorId, d: Doctor)
    requires UniqueIds(doctors) && UniqueLicenses(doctors) && OneProfilePerUser(doctors)
    requires SpecialtiesReferenced(doctors, specialties) && HasId(doctors, id)
    requires d.user == Get(doctors, id).value.user && HasId(specialties, d.specialty)
    requires forall i :: 0 <= i < |doctors| && doctors[i].id != id ==> doctors[i].val.licenseNumber != d.licenseNumber
    ensures var r := Update(doctors, id, d);
            UniqueIds(r) && UniqueLicenses(r) && OneProfilePerUser(r) && SpecialtiesReferenced(r, specialties)
  {
    var k :| 0 <= k < |doctors| && doctors[k].id == id;
    assert doctors[k].val.user == d.user;
  }
}
