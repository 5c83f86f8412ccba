/**
 * The validators of `DoctorCreationForm` and `SpecialtyForm` in
 * doctors/forms.py, and the choice `DoctorCreationForm.save` makes between
 * the create and the update path. `instance` is the record being edited, if
 * any; uniqueness checks leave that record out.
 */
module DoctorsForms {
  import opened Wrappers
  import opened Tables
  import opened Units
  import opened Text
  import opened AccountsModels
  import opened DoctorsModels
  import opened Database

  /** The user of the doctor being edited, whose own e-mail and username do not count as taken. */
  function EditedUser(instance: Option<Row<Doctor>>): Option<UserId> {
    if instance.Some? then Some(instance.value.val.user) else None
  }

  /** `clean_email`: taken by any user other than the edited doctor's. */
  function CleanDoctorEmail(users: Table<User>, instance: Option<Row<Doctor>>, email: string): (r: Cleaned<string>)
    ensures r.Invalid? <==> (email != "" &&
              exists i :: 0 <= i < |users| && users[i].val.email == email && Some(users[i].id) != EditedUser(instance))
    ensures r.Invalid? ==> r.message == "A user with this email already exists."
    ensures r.Valid? ==> r.value == email
  {
    if email != "" && Exists(users, (x: Row<User>) => x.val.email == email && Some(x.id) != EditedUser(instance))
    then Invalid("A user with this email already exists.")
    else Valid(email)
  }

  /** `clean_username`: taken by any user other than the edited doctor's. */
  function CleanDoctorUsername(users: Table<User>, instance: Option<Row<Doctor>>, username: string): (r: Cleaned<string>)
    ensures r.Invalid? <==> (username != "" &&
              exists i :: 0 <= i < |users| && users[i].val.username == username && Some(users[i].id) != EditedUser(instance))
    ensures r.Invalid? ==> r.message == "A user with this username already exists."
    ensures r.Valid? ==> r.value == username
  {
    if username != "" && Exists(users, (x: Row<User>) => x.val.username == username && Some(x.id) != EditedUser(instance))
    then Invalid("A user with this username already exists.")
    else Valid(username)
  }

  /** `clean_license_number`: taken by any doctor other than the edited one. */
  function CleanLicenseNumber(doctors: Table<Doctor>, instance: Option<Row<Doctor>>, license: string): (r: Cleaned<string>)
    ensures r.Invalid? <==> (license != "" &&
              exists i :: 0 <= i < |doctors| && doctors[i].val.licenseNumber == license &&
                (instance.None? || doctors[i].id != instance.value.id))
    ensures r.Invalid? ==> r.message == "A doctor with this license number already exists."
    ensures r.Valid? ==> r.value == license
  {
    if license != "" && Exists(doctors, (x: Row<Doctor>) => x.val.licenseNumber == license && (instance.None? || x.id != instance.value.id))
    then Invalid("A doctor with this license number already exists.")
    else Valid(license)
  }

  /** Saving a doctor unchanged never clashes with its own user's username or its own license. */
  lemma {:induction false} EditingKeepsOwnValues(users: Table<User>, doctors: Table<Doctor>, k: nat, j: nat)
    requires UniqueUsernames(users) && UniqueLicenses(doctors)
    requires k < |doctors| && j < |users| && users[j].id == doctors[k].val.user
    ensures CleanDoctorUsername(users, Some(doctors[k]), users[j].val.username).Valid?
    ensures CleanLicenseNumber(doctors, Some(doctors[k]), doctors[k].val.licenseNumber).Valid?
  {
  }

  /** `clean_experience_years`: a missing value passes, a negative one does not. */
  function CleanExperienceYears(years: Option<int>): (r: Cleaned<Option<int>>)
    ensures r.Invalid? <==> years.Some? && years.value < 0
    ensures r.Invalid? ==> r.message == "Experience years cannot be negative."
    ensures r.Valid? ==> r.value == years
  {
    if years.Some? && years.value < 0 then Invalid("Experience years cannot be negative.") else Valid(years)
  }

  /** `clean_consultation_fee`: a negative fee is refused. */
  function CleanConsultationFee(fee: Option<Money>): (r: Cleaned<Option<Money>>)
    ensures r.Invalid? <==> fee.Some? && fee.value < 0
    ensures r.Invalid? ==> r.message == "Consultation fee cannot be negative."
    ensures r.Valid? ==> r.value == fee
  {
    if fee.Some? && fee.value < 0 then Invalid("Consultation fee cannot be negative.") else Valid(fee)
  }

  /** `clean_wallet_balance`: a missing balance becomes zero; a negative one is refused. */
  function CleanWalletBalance(balance: Option<Money>): (r: Cleaned<Money>)
    ensures r.Invalid? <==> balance.Some? && balance.value < 0
    ensures r.Invalid? ==> r.message == "Wallet balance cannot be negative."
    ensures r.Valid? ==> r.value >= 0 && r.value == (if balance.Some? then balance.value else 0)
  {
    var b := if balance.None? then 0 else balance.value;
    if b < 0 then Invalid("Wallet balance cannot be negative.") else Valid(b)
  }

  /** Which branch `DoctorCreationForm.save` takes. */
  datatype SavePath = CreatePath | UpdatePath

  /**
   * `save`: creation needs an unsaved instance and a `created_by`; any user
   * object, even an anonymous one, counts as given. Everything else updates.
   */
  function DoctorSavePath(instancePk: Option<DoctorId>, createdBy: Option<Requester>): (p: SavePath)
    ensures p == CreatePath <==> instancePk.None? && createdBy.Some?
  {
    if instancePk.None? && createdBy.Some? then CreatePath else UpdatePath
  }

  /** `SpecialtyForm.clean_name`: stripped, then refused if another specialty has it up to case. */
  function CleanSpecialtyName(specialties: Table<Specialty>, instancePk: Option<SpecialtyId>, name: string): (r: Cleaned<string>)
    ensures r.Invalid? <==> (name != "" &&
              exists i :: 0 <= i < |specialties| && EqualsIgnoreCase(specialties[i].val.name, Strip(name)) &&
                Some(specialties[i].id) != instancePk)
    ensures r.Invalid? ==> r.message == "A specialty with this name already exists."
    ensures r.Valid? ==> r.value == if name == "" then name else Strip(name)
  {
    if name == "" then Valid(name)
    else
      var stripped := Strip(name);
      if Exists(specialties, (x: Row<Specialty>) => EqualsIgnoreCase(x.val.name, stripped) && Some(x.id) != instancePk)
      then Invalid("A specialty with this name already exists.")
      else Valid(stripped)
  }

  /** Names that differ only in case or surrounding whitespace are treated alike. */
  lemma {:induction false} SpecialtyNameUpToCaseAndSpace(specialties: Table<Specialty>, instancePk: Option<SpecialtyId>,
                                                         a: string, b: string)
    requires a != "" && b != "" && EqualsIgnoreCase(Strip(a), Strip(b))
    ensures CleanSpecialtyName(specialties, instancePk, a).Invalid? <==> CleanSpecialtyName(specialties, instancePk, b).Invalid?
  {
    forall x: string ensures EqualsIgnoreCase(x, Strip(a)) <==> EqualsIgnoreCase(x, Strip(b)) {
    }
  }

  /** `SpecialtyForm.clean_description`: surrounding whitespace removed. */
  function CleanDescription(description: string): (r: string)
    ensures r == Strip(description)
    ensures |r| <= |description|
    ensures r != "" ==> !IsWhitespace(r[0]) && !IsWhitespace(r[|r| - 1])
  {
    if description == "" then description else Strip(description)
  }

  /** Cleaning a description twice changes nothing more. */
  lemma {:induction false} CleanDescriptionIdempotent(description: string)
    ensures CleanDescription(CleanDescription(description)) == CleanDescription(description)
  {
    var r := CleanDescription(description);
    if r != "" {
      StripOfStripped(r);
    }
  }
}
