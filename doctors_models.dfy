/**
 * The `Specialty` and `Doctor` records of doctors/models.py and the table
 * constraints the database enforces on them: a unique license number, one
 * doctor profile per user (one-to-one), and PROTECT on the specialty.
 */
module DoctorsModels {
  import opened Tables
  import opened Units
  import opened AccountsModels

  type SpecialtyId = nat
  type DoctorId = nat

  datatype Specialty = Specialty(name: string, description: string)

  datatype Doctor = Doctor(
    user: UserId,
    specialty: SpecialtyId,
    licenseNumber: string,
    experienceYears: int,
    bio: string,
    consultationFee: Money,
    isActive: bool,
    averageRating: real,
    totalReviews: int,
    createdBy: UserId)

  /** A doctor row as created with `is_active` and `total_reviews` left at their defaults. */
  function NewDoctor(user: UserId, specialty: SpecialtyId, licenseNumber: string, experienceYears: int,
                     bio: string, consultationFee: Money, averageRating: real, createdBy: UserId): (d: Doctor)
    ensures d.isActive && d.totalReviews == 0
    ensures d.user == user && d.specialty == specialty && d.licenseNumber == licenseNumber
  {
    Doctor(user, specialty, licenseNumber, experienceYears, bio, consultationFee, true, averageRating, 0, createdBy)
  }

  /** `license_number` is unique. */
  predicate UniqueLicenses(doctors: Table<Doctor>) {
    forall i, j :: 0 <= i < j < |doctors| ==> doctors[i].val.licenseNumber != doctors[j].val.licenseNumber
  }

  /** `user` is a one-to-one field: no user has two doctor profiles. */
  predicate OneProfilePerUser(doctors: Table<Doctor>) {
    forall i, j :: 0 <= i < j < |doctors| ==> doctors[i].val.user != doctors[j].val.user
  }

  /** Every doctor's specialty exists: PROTECT refuses to delete a referenced specialty. */
  predicate SpecialtiesReferenced(doctors: Table<Doctor>, specialties: Table<Specialty>) {
    forall i :: 0 <= i < |doctors| ==> HasId(specialties, doctors[i].val.specialty)
  }

  /** Whether any doctor references the specialty (`specialty.doctor_set.exists()`). */
  predicate HasDoctors(doctors: Table<Doctor>, specialty: SpecialtyId) {
    Exists(doctors, (d: Row<Doctor>) => d.val.specialty == specialty)
  }
}
